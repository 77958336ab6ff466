/** The topology of a network (class network in ml/cnn.hpp) as a value:
    its layers, the shape of every buffer segment, the two buffer sizes,
    and the text grammar that builds and prints a topology, such as
    "28,28,1|conv,relu,5|24,24,6|max_pooling,relu,2|12,12,6|full,relu|1,1,10". */
module Topology {
  import opened Shapes
  import opened Text
  import opened Layers

  datatype Option<T> = None | Some(value: T)

  /** The fields of class network: `layers`, `geo`, `data_size`,
      `output_size` and `error_msg`. The sizes are unbounded integers. */
  datatype Net = Net(layers: seq<Layer>, geo: seq<Shape>, dataSize: int, outputSize: int, errorMsg: string)

  /** What an `add` returns together with the state it leaves. `Undefined`
      stands for a call that reads geo.back() while `geo` is empty, which
      happens when a shape token follows a layer token that came before
      any shape. */
  datatype Outcome = Outcome(ok: bool, net: Net) | Undefined

  /** A default-constructed network. */
  const Empty := Net([], [], 0, 0, "")

  function Last<T>(s: seq<T>): T
    requires |s| > 0
  {
    s[|s| - 1]
  }

  /** The total size of a list of shapes. */
  function SizeSum(geo: seq<Shape>): int {
    if |geo| == 0 then 0 else SizeSum(geo[..|geo| - 1]) + Last(geo).Size()
  }

  /** `data_size` is the total size of the shapes and `output_size` the
      size of the last one. */
  predicate Tallied(net: Net) {
    net.dataSize == SizeSum(net.geo) && (|net.geo| > 0 ==> net.outputSize == Last(net.geo).Size())
  }

  /** add(geometry) reads geo.back() whenever a layer exists. */
  predicate Anchored(net: Net) {
    |net.layers| > 0 ==> |net.geo| > 0
  }

  // ---------------------------------------------------------------------
  // add(geometry)

  /** network::add(geometry): when a layer exists, the last layer is
      re-initialised from the last shape to `dim`; if it refuses, the call
      fails (keeping whatever the refusing init changed in the layer). On
      success the shape is appended and both sizes follow it. */
  function AddShape(net: Net, dim: Shape): (r: Outcome)
    requires Anchored(net)
    ensures r.Outcome? && |r.net.layers| == |net.layers| && r.net.errorMsg == net.errorMsg
    ensures r.ok <==> |net.layers| == 0 || Compatible(Last(net.layers).kind, Last(net.geo), dim)
    ensures r.ok ==> r.net.geo == net.geo + [dim] && r.net.dataSize == net.dataSize + dim.Size() &&
                     r.net.outputSize == dim.Size()
    ensures !r.ok ==> r.net.geo == net.geo && r.net.dataSize == net.dataSize && r.net.outputSize == net.outputSize
    ensures forall i :: 0 <= i < |net.layers| - 1 ==> r.net.layers[i] == net.layers[i]
    ensures |net.layers| > 0 ==>
      Last(r.net.layers).kind == Last(net.layers).kind && Last(r.net.layers).af == Last(net.layers).af
  {
    if |net.layers| > 0 then
      var c := Configure(Last(net.layers), Last(net.geo), dim);
      var net1 := net.(layers := net.layers[..|net.layers| - 1] + [c.layer]);
      if !c.accepted then Outcome(false, net1)
      else Outcome(true, net1.(geo := net1.geo + [dim], dataSize := net1.dataSize + dim.Size(), outputSize := dim.Size()))
    else
      Outcome(true, net.(geo := net.geo + [dim], dataSize := net.dataSize + dim.Size(), outputSize := dim.Size()))
  }

  lemma SizeSumAppend(geo: seq<Shape>, dim: Shape)
    ensures SizeSum(geo + [dim]) == SizeSum(geo) + dim.Size()
  {
    assert (geo + [dim])[..|geo|] == geo;
  }

  /** add(geometry) keeps `data_size` equal to the total size of `geo` and
      `output_size` equal to the size of its last shape. */
  lemma AddShapeKeepsTally(net: Net, dim: Shape)
    requires Anchored(net) && Tallied(net)
    ensures Tallied(AddShape(net, dim).net) && Anchored(AddShape(net, dim).net)
  {
    SizeSumAppend(net.geo, dim);
  }

  // ---------------------------------------------------------------------
  // add(string) and add(vector<string>)

  /** The activation field of a layer token. */
  function ActivationOf(field: string): (r: Option<Activation>)
    ensures r == Some(Relu) <==> field == "relu"
    ensures r == Some(Identity) <==> field == "identity"
  {
    if field == "relu" then Some(Relu) else if field == "identity" then Some(Identity) else None
  }

  /** Three fields that match `(\+|-)?[[:digit:]]+` make a shape token. */
  predicate IsShapeToken(list: seq<string>) {
    |list| == 3 && IsIntegerText(list[0]) && IsIntegerText(list[1]) && IsIntegerText(list[2])
  }

  /** The shape a shape token denotes, as `istringstream >> int` reads it. */
  function ShapeOf(list: seq<string>): Shape
    requires IsShapeToken(list)
  {
    Shape(ScanInt(list[0]), ScanInt(list[1]), ScanInt(list[2]))
  }

  /** The rate a dropout token carries: what `>>` reads from its second
      field, or 0.9 when the token has no second field. */
  function DropoutRateField(list: seq<string>): (r: Rate)
    ensures |list| >= 2 ==> r == ScanRate(list[1])
    ensures |list| < 2 ==> r == DefaultDropoutRate
  {
    if |list| >= 2 then ScanRate(list[1]) else DefaultDropoutRate
  }

  /** The layer a token of a layer class pushes, if any: `soft_max`,
      `dropout[,rate]`, `full,af`, `max_pooling,af,n` or `conv,af,n`,
      with `af` either `relu` or `identity`. */
  function LayerOf(list: seq<string>): Option<Layer>
    requires |list| >= 1
  {
    if list[0] == "soft_max" then Some(NewLayer(SoftMax, Identity))
    else if list[0] == "dropout" then Some(NewLayer(Dropout(DropoutRateField(list)), Identity))
    else if |list| < 2 then None
    else
      match ActivationOf(list[1])
      case None => None
      case Some(af) =>
        if list[0] == "full" then Some(NewLayer(Full, af))
        else if |list| < 3 then None
        else if list[0] == "max_pooling" then Some(NewLayer(MaxPool(ScanInt(list[2])), af))
        else if list[0] == "conv" then Some(NewLayer(Conv(ScanInt(list[2])), af))
        else None
  }

  /** add(string) on one token, the part after the split on `|`: split on
      `,`; a shape token goes to add(geometry), any other token pushes the
      layer it names or fails. The split never yields an empty list, so
      the source's `list.empty()` test never fires. */
  function AddToken(net: Net, token: string): Outcome {
    var list := Split(token, ',');
    if IsShapeToken(list) then
      if Anchored(net) then AddShape(net, ShapeOf(list)) else Undefined
    else
      match LayerOf(list)
      case None => Outcome(false, net)
      case Some(l) => Outcome(true, net.(layers := net.layers + [l]))
  }

  /** The length of the longest text of a list. */
  function MaxLen(list: seq<string>): nat {
    if |list| == 0 then 0
    else
      var m := MaxLen(list[1..]);
      if |list[0]| > m then |list[0]| else m
  }

  /** network::add(string): a text with more than one `|`-separated piece
      goes to add(vector) piece by piece; any other text is one token. */
  function AddText(net: Net, text: string): Outcome
    decreases |text|, 0, 0
  {
    var pieces := Split(text, '|');
    if |pieces| > 1 then
      SplitShorter(text, '|');
      AddList(net, pieces)
    else
      AddToken(net, text)
  }

  /** network::add(vector<string>): adds the texts in order; at the first
      one that fails, stores it in `error_msg` and fails. */
  function AddList(net: Net, list: seq<string>): Outcome
    decreases MaxLen(list), 1, |list|
  {
    if |list| == 0 then Outcome(true, net)
    else
      match AddText(net, list[0])
      case Undefined => Undefined
      case Outcome(ok, net1) =>
        if !ok then Outcome(false, net1.(errorMsg := list[0])) else AddList(net1, list[1..])
  }

  // ---------------------------------------------------------------------
  // Splitting shortens

  lemma {:induction false} PiecesLengths(s: string, sep: char)
    ensures forall i :: 0 <= i < |Pieces(s, sep)| ==> |Pieces(s, sep)[i]| + |Pieces(s, sep)| - 1 <= |s|
    decreases |s|
  {
    if |s| > 0 {
      PiecesLengths(s[1..], sep);
    }
  }

  lemma {:induction false} MaxLenBelow(list: seq<string>, b: nat)
    requires b > 0 && forall i :: 0 <= i < |list| ==> |list[i]| < b
    ensures MaxLen(list) < b
    decreases |list|
  {
    if |list| > 0 {
      MaxLenBelow(list[1..], b);
    }
  }

  /** The pieces of a text that holds a separator are shorter than it. */
  lemma SplitShorter(s: string, sep: char)
    requires |Split(s, sep)| > 1
    ensures MaxLen(Split(s, sep)) < |s|
  {
    PiecesLengths(s, sep);
    var p := Pieces(s, sep);
    var r := Split(s, sep);
    assert |s| > 0;
    forall i | 0 <= i < |r| ensures |r[i]| < |s| {
      assert r[i] == p[i];
    }
    MaxLenBelow(r, |s|);
  }

  // ---------------------------------------------------------------------
  // What the parser promises

  /** A text with no `|` is a single token. */
  lemma TokenText(net: Net, token: string)
    requires '|' !in token
    ensures AddText(net, token) == AddToken(net, token)
  {
    SplitOfSepFree(token, '|');
  }

  /** A token of three integer fields adds the shape they denote. */
  lemma ShapeTokenAddsShape(net: Net, token: string)
    requires '|' !in token && IsShapeToken(Split(token, ',')) && Anchored(net)
    ensures AddText(net, token) == AddShape(net, ShapeOf(Split(token, ',')))
  {
    TokenText(net, token);
  }

  /** Any other token either pushes exactly one layer and succeeds, or
      changes nothing and fails; which one is decided by the layer name,
      the activation field, and the number of fields. */
  lemma LayerTokenPushes(net: Net, token: string)
    requires '|' !in token && !IsShapeToken(Split(token, ','))
    ensures var list := Split(token, ',');
      AddText(net, token) ==
        match LayerOf(list)
        case None => Outcome(false, net)
        case Some(l) => Outcome(true, net.(layers := net.layers + [l]))
    ensures var list := Split(token, ',');
      LayerOf(list).Some? <==>
        list[0] == "soft_max" || list[0] == "dropout" ||
        (|list| >= 2 && (list[1] == "relu" || list[1] == "identity") &&
         (list[0] == "full" || (|list| >= 3 && (list[0] == "max_pooling" || list[0] == "conv"))))
  {
    TokenText(net, token);
  }

  /** The layer each accepted name pushes. */
  lemma LayerNames(list: seq<string>)
    requires |list| >= 1 && LayerOf(list).Some?
    ensures var l := LayerOf(list).value;
      l.status == Testing && l.weight == [] && l.bias == [] &&
      (list[0] == "soft_max" ==> l.kind == SoftMax && l.af == Identity) &&
      (list[0] == "dropout" ==> l.kind == Dropout(DropoutRateField(list)) && l.af == Identity) &&
      (list[0] == "full" ==> l.kind == Full && Some(l.af) == ActivationOf(list[1])) &&
      (list[0] == "max_pooling" ==> l.kind == MaxPool(ScanInt(list[2])) && Some(l.af) == ActivationOf(list[1])) &&
      (list[0] == "conv" ==> l.kind == Conv(ScanInt(list[2])) && Some(l.af) == ActivationOf(list[1]))
  {
  }

  /** Empty text fails and changes nothing. */
  lemma EmptyTextFails(net: Net)
    ensures AddText(net, "") == Outcome(false, net)
  {
    assert Pieces("", '|') == [""];
    assert Pieces("", ',') == [""];
  }

  /** A list is applied front to back: the tokens after a failure are not
      applied, and a failing single token is recorded in `error_msg`. */
  lemma {:induction false} AddListAppend(net: Net, a: seq<string>, b: seq<string>)
    ensures AddList(net, a + b) ==
      match AddList(net, a)
      case Undefined => Undefined
      case Outcome(ok, net1) => if ok then AddList(net1, b) else Outcome(false, net1)
    decreases |a|
  {
    if |a| == 0 {
      assert a + b == b;
    } else {
      assert (a + b)[0] == a[0];
      assert (a + b)[1..] == a[1..] + b;
      match AddText(net, a[0]) {
        case Undefined =>
        case Outcome(ok, net1) =>
          if ok {
            AddListAppend(net1, a[1..], b);
          }
      }
    }
  }

  lemma SingleFailure(net: Net, t: string)
    requires AddText(net, t).Outcome? && !AddText(net, t).ok
    ensures AddList(net, [t]) == Outcome(false, AddText(net, t).net.(errorMsg := t))
  {
  }

  /** Parsing keeps `data_size` and `output_size` in step with `geo`. */
  lemma {:induction false} AddTextKeepsTally(net: Net, text: string)
    requires Tallied(net)
    ensures AddText(net, text).Outcome? ==> Tallied(AddText(net, text).net)
    decreases |text|, 0, 0
  {
    var pieces := Split(text, '|');
    if |pieces| > 1 {
      SplitShorter(text, '|');
      AddListKeepsTally(net, pieces);
    } else {
      var list := Split(text, ',');
      if IsShapeToken(list) && Anchored(net) {
        AddShapeKeepsTally(net, ShapeOf(list));
      }
    }
  }

  lemma {:induction false} AddListKeepsTally(net: Net, list: seq<string>)
    requires Tallied(net)
    ensures AddList(net, list).Outcome? ==> Tallied(AddList(net, list).net)
    decreases MaxLen(list), 1, |list|
  {
    if |list| > 0 {
      AddTextKeepsTally(net, list[0]);
      match AddText(net, list[0]) {
        case Undefined =>
        case Outcome(ok, net1) =>
          if ok {
            AddListKeepsTally(net1, list[1..]);
          }
      }
    }
  }

  // ---------------------------------------------------------------------
  // The dropout token without a rate

  /** The dropout branch as written reads field 1 of the token
      unconditionally; it is only defined when that field exists. */
  function DropoutRateAsWritten(list: seq<string>): (r: Rate)
    requires |list| >= 2
    ensures r == ScanRate(list[1])
  {
    ScanRate(list[1])
  }

  /** "dropout" and "dropout," reach the dropout branch with a single
      field, so the source's read of field 1 is out of range. */
  lemma DropoutWithoutRate()
    ensures Split("dropout", ',') == ["dropout"]
    ensures Split("dropout,", ',') == ["dropout"]
    ensures !IsShapeToken(["dropout"])
  {
    DropoutAlone();
    DropoutTrailingComma();
  }

  lemma DropoutAlone()
    ensures Split("dropout", ',') == ["dropout"]
  {
    assert ',' !in "dropout";
    SplitOfSepFree("dropout", ',');
  }

  lemma DropoutTrailingComma()
    ensures Split("dropout,", ',') == ["dropout"]
  {
    var word, comma := "dropout", ",";
    assert ',' !in word && comma[0] == ',' && comma[1..] == "";
    PiecesOfSepFree(word, comma, ',');
    assert word + comma == "dropout,";
    assert Pieces("dropout,", ',') == [word, ""];
  }

  /** With the default the initialiser evidently intends, a dropout token
      without a rate pushes a dropout layer of rate 0.9. */
  lemma DropoutDefaultsRate(net: Net)
    ensures AddText(net, "dropout") == Outcome(true, net.(layers := net.layers + [NewLayer(Dropout(Rate(9, 1)), Identity)]))
  {
    DropoutWithoutRate();
    assert '|' !in "dropout";
    TokenText(net, "dropout");
    DropoutNameReads();
    var list := Split("dropout", ',');
    assert list == ["dropout"];
    assert AddToken(net, "dropout") == Outcome(true, net.(layers := net.layers + [LayerOf(list).value]));
  }

  lemma DropoutNameReads()
    ensures LayerOf(["dropout"]) == Some(NewLayer(Dropout(DefaultDropoutRate), Identity))
  {
    assert "dropout" != "soft_max";
  }

  // ---------------------------------------------------------------------
  // get_layer_text

  function ActivationName(af: Activation): string {
    if af == Relu then "relu" else "identity"
  }

  /** The fields of the token get_layer_text prints for a shape. */
  function ShapeFields(s: Shape): seq<string> {
    [IntToString(s.w), IntToString(s.h), IntToString(s.d)]
  }

  /** The fields of the token get_layer_text prints for a layer. */
  function LayerFields(l: Layer): seq<string> {
    match l.kind
    case Conv(k) => ["conv", ActivationName(l.af), IntToString(k)]
    case MaxPool(p) => ["max_pooling", ActivationName(l.af), IntToString(p)]
    case Full => ["full", ActivationName(l.af)]
    case SoftMax => ["soft_max"]
    case Dropout(r) => ["dropout", RateToString(r)]
  }

  function ShapeToken(s: Shape): string { Join(ShapeFields(s), ',') }

  function LayerToken(l: Layer): string { Join(LayerFields(l), ',') }

  /** The tokens get_layer_text prints from shape i on: each shape,
      followed by the layer of the same index when there is one. */
  function TokensFrom(net: Net, i: nat): (r: seq<string>)
    ensures i < |net.geo| ==> |r| >= 1
    decreases |net.geo| - i
  {
    if i >= |net.geo| then []
    else [ShapeToken(net.geo[i])] + (if i < |net.layers| then [LayerToken(net.layers[i])] else []) + TokensFrom(net, i + 1)
  }

  /** The token of layer `i`, if there is one. */
  function LayerPart(net: Net, i: nat): seq<string> {
    if i < |net.layers| then [LayerToken(net.layers[i])] else []
  }

  lemma TokensStep(net: Net, i: nat)
    requires i < |net.geo|
    ensures TokensFrom(net, i) == [ShapeToken(net.geo[i])] + LayerPart(net, i) + TokensFrom(net, i + 1)
  {
  }

  /** network::get_layer_text: the tokens joined by `|`. */
  function LayerText(net: Net): string {
    if |net.geo| == 0 then "" else Join(TokensFrom(net, 0), '|')
  }

  // ---------------------------------------------------------------------
  // The text round trip

  /** What the printed token of a layer needs so that reading it back
      rebuilds the layer's class, activation and parameter: a canonical
      dropout rate, and the identity activation that dropout and soft-max
      layers always have. */
  predicate TokenFits(l: Layer) {
    (l.kind.Dropout? ==> Canonical(l.kind.rate)) &&
    (l.kind.Dropout? || l.kind.SoftMax? ==> l.af == Identity)
  }

  /** A network of alternating shapes and layers in which every layer
      accepts the shapes on either side of it. */
  predicate Consistent(net: Net) {
    |net.geo| == |net.layers| + 1 &&
    forall i :: 0 <= i < |net.layers| ==>
      Compatible(net.layers[i].kind, net.geo[i], net.geo[i + 1]) && TokenFits(net.layers[i])
  }

  /** Layer i as the parser rebuilds it: a new layer of the same class and
      activation initialised with the shapes around it. */
  function Fresh(net: Net, i: int): Layer
    requires 0 <= i < |net.layers| && i + 1 < |net.geo|
  {
    Configure(NewLayer(net.layers[i].kind, net.layers[i].af), net.geo[i], net.geo[i + 1]).layer
  }

  /** The state after reading the first i + 1 shapes and the i layers
      between them into an empty network. */
  function Rebuilt(net: Net, i: nat): Net
    requires Consistent(net) && i <= |net.layers|
  {
    Net(seq(i, j requires 0 <= j < i => Fresh(net, j)), net.geo[..i + 1], SizeSum(net.geo[..i + 1]), net.geo[i].Size(), "")
  }

  /** A rebuilt layer after operator= has copied the other network's
      parameters into it: only a layer whose rebuilt weights are non-empty
      takes the other layer's weight and bias. */
  function WithParams(rebuilt: Layer, other: Layer): (l: Layer)
    ensures rebuilt.weight != [] ==> l.weight == other.weight && l.bias == other.bias
    ensures rebuilt.weight == [] ==> l == rebuilt
    ensures l.(weight := rebuilt.weight, bias := rebuilt.bias) == rebuilt
  {
    if rebuilt.weight != [] then rebuilt.(weight := other.weight, bias := other.bias) else rebuilt
  }

  /** The layers left by operator=: each rebuilt layer with its parameters
      copied from the same layer of the source network. */
  function Assigned(net: Net): seq<Layer>
    requires Consistent(net)
  {
    seq(|net.layers|, i requires 0 <= i < |net.layers| => WithParams(Fresh(net, i), net.layers[i]))
  }

  /** A network whose every layer is the layer the parser would rebuild,
      apart from its trained parameters, which have the rebuilt sizes
      (none for a layer without weights). */
  predicate Trained(net: Net)
    requires Consistent(net)
  {
    forall i :: 0 <= i < |net.layers| ==>
      net.layers[i].(weight := Fresh(net, i).weight, bias := Fresh(net, i).bias) == Fresh(net, i) &&
      (Fresh(net, i).weight == [] ==> net.layers[i].weight == [] && net.layers[i].bias == Fresh(net, i).bias)
  }

  /** operator= reproduces a trained network's layers exactly, weights and
      biases included. */
  lemma AssignedRestores(net: Net)
    requires Consistent(net) && Trained(net)
    ensures Assigned(net) == net.layers
  {
    forall i | 0 <= i < |net.layers|
      ensures Assigned(net)[i] == net.layers[i]
    {
      var f := Fresh(net, i);
      var l := net.layers[i];
      assert l.(weight := f.weight, bias := f.bias) == f;
      if f.weight == [] {
        assert l.weight == f.weight && l.bias == f.bias;
        assert l == f;
      }
    }
  }

  lemma IntToStringChars(n: int)
    ensures forall i :: 0 <= i < |IntToString(n)| ==> IsDigit(IntToString(n)[i]) || IntToString(n)[i] == '-'
    ensures '|' !in IntToString(n) && ',' !in IntToString(n)
  {
    var d := NatToString(if n < 0 then -n else n);
    if n < 0 {
      assert forall i :: 1 <= i < |IntToString(n)| ==> IntToString(n)[i] == d[i - 1];
    }
  }

  lemma RateToStringChars(r: Rate)
    ensures '|' !in RateToString(r) && ',' !in RateToString(r)
  {
    var digits := NatToString(r.mantissa);
    if r.scale > 0 {
      var padded := Padded(digits, r.scale);
      assert AllDigits(padded);
      PointedChars(padded, r.scale);
    }
  }

  lemma PointedChars(p: string, scale: nat)
    requires scale <= |p| && AllDigits(p)
    ensures '|' !in Pointed(p, scale) && ',' !in Pointed(p, scale)
  {
    var s := Pointed(p, scale);
    assert forall i :: 0 <= i < |s| ==> IsDigit(s[i]) || s[i] == '.';
  }

  lemma ShapeTokenFree(s: Shape)
    ensures '|' !in ShapeToken(s) && ShapeToken(s) != ""
    ensures forall i :: 0 <= i < 3 ==> ',' !in ShapeFields(s)[i]
  {
    IntToStringChars(s.w);
    IntToStringChars(s.h);
    IntToStringChars(s.d);
    JoinFree(ShapeFields(s), ',', '|');
    JoinNonEmpty(ShapeFields(s), ',');
  }

  lemma JoinNonEmpty(ts: seq<string>, sep: char)
    requires |ts| >= 1 && ts[0] != ""
    ensures Join(ts, sep) != ""
  {
    if |ts| > 1 {
      assert Join(ts, sep)[0] == ts[0][0];
    }
  }

  lemma ShapeTokenReads(s: Shape)
    ensures Split(ShapeToken(s), ',') == ShapeFields(s)
    ensures IsShapeToken(ShapeFields(s)) && ShapeOf(ShapeFields(s)) == s
  {
    ShapeTokenFree(s);
    IntToStringRoundTrip(s.w);
    IntToStringRoundTrip(s.h);
    IntToStringRoundTrip(s.d);
    SplitOfJoin(ShapeFields(s), ',');
  }

  /** A character absent from every piece and different from the
      separator is absent from the joined text. */
  lemma {:induction false} JoinFree(ts: seq<string>, sep: char, c: char)
    requires |ts| >= 1 && c != sep && forall i :: 0 <= i < |ts| ==> c !in ts[i]
    ensures c !in Join(ts, sep)
    decreases |ts|
  {
    if |ts| > 1 {
      JoinFree(ts[1..], sep, c);
    }
  }

  lemma LayerFieldsFree(l: Layer)
    ensures forall i :: 0 <= i < |LayerFields(l)| ==> ',' !in LayerFields(l)[i] && '|' !in LayerFields(l)[i]
    ensures |LayerFields(l)| >= 1 && Last(LayerFields(l)) != ""
  {
    match l.kind {
      case Conv(k) => IntToStringChars(k);
      case MaxPool(p) => IntToStringChars(p);
      case Full =>
      case SoftMax =>
      case Dropout(r) => RateToStringChars(r);
    }
  }

  lemma LayerTokenFree(l: Layer)
    ensures '|' !in LayerToken(l) && LayerToken(l) != ""
    ensures Split(LayerToken(l), ',') == LayerFields(l)
  {
    LayerTokenBare(l);
    SplitOfJoin(LayerFields(l), ',');
  }

  lemma LayerTokenBare(l: Layer)
    ensures '|' !in LayerToken(l) && LayerToken(l) != ""
    ensures forall i :: 0 <= i < |LayerFields(l)| ==> ',' !in LayerFields(l)[i]
    ensures |LayerFields(l)| > 1 ==> LayerFields(l)[|LayerFields(l)| - 1] != ""
  {
    LayerFieldsFree(l);
    JoinFree(LayerFields(l), ',', '|');
    JoinNonEmpty(LayerFields(l), ',');
  }

  /** The fields of a layer token name the layer's class again, and no
      class name reads as an integer. */
  lemma LayerFieldsRead(l: Layer)
    requires TokenFits(l)
    ensures !IsShapeToken(LayerFields(l))
    ensures LayerOf(LayerFields(l)) == Some(NewLayer(l.kind, l.af))
  {
    match l.kind {
      case Conv(k) =>
        IntToStringRoundTrip(k);
        ConvFieldsRead(l.af, k);
      case MaxPool(p) =>
        IntToStringRoundTrip(p);
        PoolFieldsRead(l.af, p);
      case Full =>
        FullFieldsRead(l.af);
      case SoftMax =>
        assert !IsDigit('s');
      case Dropout(r) =>
        RateRoundTrip(r);
        assert !IsDigit('d');
    }
  }

  lemma ConvFieldsRead(af: Activation, k: int)
    ensures !IsShapeToken(["conv", ActivationName(af), IntToString(k)])
    ensures LayerOf(["conv", ActivationName(af), IntToString(k)]) == Some(NewLayer(Conv(ScanInt(IntToString(k))), af))
  {
    assert !IsDigit('c');
    assert "conv" != "soft_max" && "conv" != "dropout" && "conv" != "full" && "conv" != "max_pooling";
  }

  lemma PoolFieldsRead(af: Activation, p: int)
    ensures !IsShapeToken(["max_pooling", ActivationName(af), IntToString(p)])
    ensures LayerOf(["max_pooling", ActivationName(af), IntToString(p)]) == Some(NewLayer(MaxPool(ScanInt(IntToString(p))), af))
  {
    assert !IsDigit('m');
    assert "max_pooling" != "soft_max" && "max_pooling" != "dropout" && "max_pooling" != "full";
  }

  lemma FullFieldsRead(af: Activation)
    ensures !IsShapeToken(["full", ActivationName(af)])
    ensures LayerOf(["full", ActivationName(af)]) == Some(NewLayer(Full, af))
  {
    assert "full" != "soft_max" && "full" != "dropout";
  }

  /** The state once layer i's token is read: a new layer of its class
      and activation appended. */
  function Pushed(net: Net, i: nat): Net
    requires Consistent(net) && i < |net.layers|
  {
    var p := Rebuilt(net, i);
    p.(layers := p.layers + [NewLayer(net.layers[i].kind, net.layers[i].af)])
  }

  /** Reading layer i's token pushes the layer. */
  lemma LayerStep(net: Net, i: nat)
    requires Consistent(net) && i < |net.layers|
    ensures AddText(Rebuilt(net, i), LayerToken(net.layers[i])) == Outcome(true, Pushed(net, i))
  {
    var l := net.layers[i];
    LayerTokenFree(l);
    LayerFieldsRead(l);
    TokenText(Rebuilt(net, i), LayerToken(l));
  }

  /** Reading shape i + 1 then initialises the pushed layer. */
  lemma ShapeStep(net: Net, i: nat)
    requires Consistent(net) && i < |net.layers|
    ensures AddText(Pushed(net, i), ShapeToken(net.geo[i + 1])) == Outcome(true, Rebuilt(net, i + 1))
  {
    ShapeTokenFree(net.geo[i + 1]);
    ShapeTokenReads(net.geo[i + 1]);
    TokenText(Pushed(net, i), ShapeToken(net.geo[i + 1]));
    PushedThenShaped(net, i);
  }

  lemma PushedThenShaped(net: Net, i: nat)
    requires Consistent(net) && i < |net.layers|
    ensures AddShape(Pushed(net, i), net.geo[i + 1]) == Outcome(true, Rebuilt(net, i + 1))
  {
    var q := Pushed(net, i);
    var dim := net.geo[i + 1];
    assert net.geo[..i + 2] == net.geo[..i + 1] + [dim];
    SizeSumAppend(net.geo[..i + 1], dim);
    assert Last(q.geo) == net.geo[i];
    var c := Configure(Last(q.layers), Last(q.geo), dim);
    assert c.layer == Fresh(net, i);
    assert q.layers[..|q.layers| - 1] + [c.layer] == Rebuilt(net, i + 1).layers;
  }

  /** The tokens after shape i rebuild the rest of the network. */
  lemma {:induction false} RebuildFrom(net: Net, i: nat)
    requires Consistent(net) && i <= |net.layers|
    ensures AddList(Rebuilt(net, i), TokensFrom(net, i)[1..]) == Outcome(true, Rebuilt(net, |net.layers|))
    decreases |net.layers| - i
  {
    TokensAfter(net, i);
    if i < |net.layers| {
      LayerStep(net, i);
      ShapeStep(net, i);
      ListTwoSteps(Rebuilt(net, i), LayerToken(net.layers[i]), ShapeToken(net.geo[i + 1]),
                   TokensFrom(net, i + 1)[1..], Pushed(net, i), Rebuilt(net, i + 1));
      RebuildFrom(net, i + 1);
    }
  }

  /** After shape i come layer i and shape i + 1, or nothing after the
      last shape. */
  lemma TokensAfter(net: Net, i: nat)
    requires Consistent(net) && i <= |net.layers|
    ensures i == |net.layers| ==> TokensFrom(net, i) == [ShapeToken(net.geo[i])]
    ensures i == |net.layers| ==> TokensFrom(net, i)[1..] == []
    ensures i < |net.layers| ==>
      TokensFrom(net, i)[1..] == [LayerToken(net.layers[i])] + ([ShapeToken(net.geo[i + 1])] + TokensFrom(net, i + 1)[1..])
  {
    TokensStep(net, i);
    if i == |net.layers| {
      assert TokensFrom(net, i + 1) == [] && LayerPart(net, i) == [];
      assert [ShapeToken(net.geo[i])] + [] + [] == [ShapeToken(net.geo[i])];
    } else {
      assert LayerPart(net, i) == [LayerToken(net.layers[i])];
      TokensStep(net, i + 1);
      AfterHead(ShapeToken(net.geo[i]), LayerToken(net.layers[i]), ShapeToken(net.geo[i + 1]), TokensFrom(net, i + 1));
    }
  }

  lemma AfterHead(a: string, l: string, b: string, next: seq<string>)
    requires |next| > 0 && next[0] == b
    ensures ([a] + [l] + next)[1..] == [l] + ([b] + next[1..])
  {
  }

  lemma ListOneStep(net: Net, t: string, rest: seq<string>, a: Net)
    requires AddText(net, t) == Outcome(true, a)
    ensures AddList(net, [t] + rest) == AddList(a, rest)
  {
    assert ([t] + rest)[0] == t && ([t] + rest)[1..] == rest;
  }

  lemma ListTwoSteps(net: Net, t1: string, t2: string, rest: seq<string>, a: Net, b: Net)
    requires AddText(net, t1) == Outcome(true, a) && AddText(a, t2) == Outcome(true, b)
    ensures AddList(net, [t1] + ([t2] + rest)) == AddList(b, rest)
  {
    ListOneStep(net, t1, [t2] + rest, a);
    ListOneStep(a, t2, rest, b);
  }

  /** No layers, no shapes and `data_size` 0: a new or reset network. */
  predicate Cleared(net: Net) {
    net.layers == [] && net.geo == [] && net.dataSize == 0
  }

  /** The first shape token of the text starts the rebuilt network, on any
      network without layers or shapes; `error_msg` is kept. */
  lemma FirstShape(net: Net, start: Net)
    requires Consistent(net) && Cleared(start)
    ensures AddText(start, ShapeToken(net.geo[0])) == Outcome(true, Rebuilt(net, 0).(errorMsg := start.errorMsg))
  {
    var dim := net.geo[0];
    ShapeTokenFree(dim);
    ShapeTokenReads(dim);
    ShapeTokenAddsShape(start, ShapeToken(dim));
    FirstShapeAdded(net, start);
  }

  /** Adding the first shape to such a network gives the rebuilt start. */
  lemma FirstShapeAdded(net: Net, start: Net)
    requires Consistent(net) && Cleared(start)
    ensures AddShape(start, net.geo[0]) == Outcome(true, Rebuilt(net, 0).(errorMsg := start.errorMsg))
  {
    var dim := net.geo[0];
    SizeSumAppend([], dim);
    assert [] + [dim] == [dim] == net.geo[..1];
    assert AddShape(start, dim).net.layers == [] == Rebuilt(net, 0).layers;
  }

  /** Re-reading the text of a consistent network into a network without
      layers or shapes succeeds and rebuilds every shape and, layer by
      layer, a new layer of the same class, activation and parameter
      initialised with the same shapes; the sizes follow the shapes and
      `error_msg` is kept. */
  lemma {:induction false} RoundTrip(net: Net, start: Net)
    requires Consistent(net) && Cleared(start)
    ensures AddText(start, LayerText(net)) == Outcome(true, Rebuilt(net, |net.layers|).(errorMsg := start.errorMsg))
  {
    FirstShape(net, start);
    TokensAfter(net, 0);
    if |net.layers| > 0 {
      RoundTripText(net, start);
    }
  }

  lemma RoundTripText(net: Net, start: Net)
    requires Consistent(net) && Cleared(start) && |net.layers| > 0
    ensures AddText(start, LayerText(net)) == Outcome(true, Rebuilt(net, |net.layers|).(errorMsg := start.errorMsg))
  {
    var ts := TokensFrom(net, 0);
    var first := Rebuilt(net, 0);
    TextIsTokens(net, start);
    FirstShape(net, start);
    ListOneStep(start, ts[0], ts[1..], first.(errorMsg := start.errorMsg));
    RebuildFrom(net, 0);
    ListIgnoresMsg(first, ts[1..], start.errorMsg);
  }

  /** The text of a network with layers is read token by token. */
  lemma TextIsTokens(net: Net, start: Net)
    requires Consistent(net) && |net.layers| > 0
    ensures AddText(start, LayerText(net)) == AddList(start, [TokensFrom(net, 0)[0]] + TokensFrom(net, 0)[1..])
  {
    var ts := TokensFrom(net, 0);
    TokensFree(net, 0);
    TokensLong(net);
    TextOfTokens(start, ts);
    assert ts == [ts[0]] + ts[1..];
  }

  lemma TokensLong(net: Net)
    requires Consistent(net) && |net.layers| > 0
    ensures |TokensFrom(net, 0)| > 1
  {
    TokensStep(net, 0);
  }

  /** A text joined from more than one `|`-free, non-empty token is read
      as the list of those tokens. */
  lemma TextOfTokens(start: Net, ts: seq<string>)
    requires |ts| > 1
    requires forall k :: 0 <= k < |ts| ==> '|' !in ts[k] && ts[k] != ""
    ensures AddText(start, Join(ts, '|')) == AddList(start, ts)
  {
    assert Last(ts) != "";
    SplitOfJoin(ts, '|');
  }

  /** A text that succeeds does not read `error_msg`. */
  lemma {:induction false} TextIgnoresMsg(n: Net, t: string, m: string)
    requires AddText(n, t).Outcome? && AddText(n, t).ok
    ensures AddText(n.(errorMsg := m), t) == Outcome(true, AddText(n, t).net.(errorMsg := m))
    decreases |t|, 0, 0
  {
    var pieces := Split(t, '|');
    if |pieces| > 1 {
      SplitShorter(t, '|');
      ListIgnoresMsg(n, pieces, m);
    } else {
      TokenIgnoresMsg(n, t, m);
    }
  }

  lemma TokenIgnoresMsg(n: Net, t: string, m: string)
    requires AddToken(n, t).Outcome?
    ensures AddToken(n.(errorMsg := m), t) == Outcome(AddToken(n, t).ok, AddToken(n, t).net.(errorMsg := m))
  {
    var list := Split(t, ',');
    if IsShapeToken(list) {
      ShapeIgnoresMsg(n, ShapeOf(list), m);
    }
  }

  lemma ShapeIgnoresMsg(n: Net, dim: Shape, m: string)
    requires Anchored(n)
    ensures AddShape(n.(errorMsg := m), dim) == Outcome(AddShape(n, dim).ok, AddShape(n, dim).net.(errorMsg := m))
  {
  }

  lemma {:induction false} ListIgnoresMsg(n: Net, list: seq<string>, m: string)
    requires AddList(n, list).Outcome? && AddList(n, list).ok
    ensures AddList(n.(errorMsg := m), list) == Outcome(true, AddList(n, list).net.(errorMsg := m))
    decreases MaxLen(list), 1, |list|
  {
    if |list| > 0 {
      var r := AddText(n, list[0]);
      assert r.Outcome? && r.ok;
      TextIgnoresMsg(n, list[0], m);
      ListIgnoresMsg(r.net, list[1..], m);
    }
  }

  lemma {:induction false} TokensFree(net: Net, i: nat)
    requires Consistent(net)
    ensures forall k :: 0 <= k < |TokensFrom(net, i)| ==> '|' !in TokensFrom(net, i)[k] && TokensFrom(net, i)[k] != ""
    decreases |net.geo| - i
  {
    if i < |net.geo| {
      TokensFree(net, i + 1);
      ShapeTokenFree(net.geo[i]);
      if i < |net.layers| {
        LayerTokenBare(net.layers[i]);
      }
      TokensStep(net, i);
      FreeJoin(ShapeToken(net.geo[i]), LayerPart(net, i), TokensFrom(net, i + 1));
    }
  }

  lemma FreeJoin(a: string, mid: seq<string>, rest: seq<string>)
    requires '|' !in a && a != ""
    requires forall k :: 0 <= k < |mid| ==> '|' !in mid[k] && mid[k] != ""
    requires forall k :: 0 <= k < |rest| ==> '|' !in rest[k] && rest[k] != ""
    ensures forall k :: 0 <= k < |[a] + mid + rest| ==> '|' !in ([a] + mid + rest)[k] && ([a] + mid + rest)[k] != ""
  {
    var ts := [a] + mid + rest;
    assert forall k :: 1 <= k < 1 + |mid| ==> ts[k] == mid[k - 1];
    assert forall k :: 1 + |mid| <= k < |ts| ==> ts[k] == rest[k - 1 - |mid|];
  }

  /** The rebuilt network is consistent and prints the same text, so
      copying a copy gives the same network again. */
  lemma {:induction false} RebuiltPrintsSame(net: Net)
    requires Consistent(net)
    ensures Consistent(Rebuilt(net, |net.layers|))
    ensures LayerText(Rebuilt(net, |net.layers|)) == LayerText(net)
    ensures Tallied(Rebuilt(net, |net.layers|))
    ensures forall i :: 0 <= i < |net.layers| ==>
      Rebuilt(net, |net.layers|).layers[i].kind == net.layers[i].kind &&
      Rebuilt(net, |net.layers|).layers[i].af == net.layers[i].af
  {
    var r := Rebuilt(net, |net.layers|);
    assert net.geo[..|net.layers| + 1] == net.geo;
    forall i | 0 <= i < |net.layers|
      ensures r.layers[i].kind == net.layers[i].kind && r.layers[i].af == net.layers[i].af
    {
      assert r.layers[i] == Fresh(net, i);
    }
    SameTokens(net, r, 0);
  }

  lemma {:induction false} SameTokens(a: Net, b: Net, i: nat)
    requires a.geo == b.geo && |a.layers| == |b.layers|
    requires forall k :: 0 <= k < |a.layers| ==> a.layers[k].kind == b.layers[k].kind && a.layers[k].af == b.layers[k].af
    ensures TokensFrom(a, i) == TokensFrom(b, i)
    decreases |a.geo| - i
  {
    if i < |a.geo| {
      SameTokens(a, b, i + 1);
      if i < |a.layers| {
        SameToken(a.layers[i], b.layers[i]);
      }
      assert LayerPart(a, i) == LayerPart(b, i);
      TokensStep(a, i);
      TokensStep(b, i);
    }
  }

  /** A layer's token depends only on its class and activation. */
  lemma SameToken(a: Layer, b: Layer)
    requires a.kind == b.kind && a.af == b.af
    ensures LayerToken(a) == LayerToken(b)
  {
    assert LayerFields(a) == LayerFields(b);
  }
}
