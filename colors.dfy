/** vis/color_map.hpp: the spectrum byte function, the 256-entry colour
    tables of color_map (channels as reals in [0, 1]) and color_map_rgb
    (channels as bytes), the grouping of a colour file's values into RGB
    triples, and value_to_color, which scales a value onto a table index
    and clamps it. */
module Colors {
  import opened Arith
  /** unsigned char. */
  type Byte = x: int | 0 <= x < 256

  /** tipl::rgb: channel 0 is red, 1 green, 2 blue. */
  datatype Rgb = Rgb(r: Byte, g: Byte, b: Byte) {
    function Channel(k: int): Byte
      requires 0 <= k < 3
    {
      if k == 0 then r else if k == 1 then g else b
    }

    function WithChannel(k: int, v: Byte): (c: Rgb)
      requires 0 <= k < 3
      ensures c.Channel(k) == v
      ensures forall j :: 0 <= j < 3 && j != k ==> c.Channel(j) == Channel(j)
    {
      if k == 0 then this.(r := v) else if k == 1 then this.(g := v) else this.(b := v)
    }
  }

  const Black := Rgb(0, 0, 0)

  /** tipl::vector<3,float>. */
  datatype Vec3 = Vec3(x: real, y: real, z: real)

  // ------------------------------------------------------ spectrum value

  function Distance(a: Byte, b: Byte): (d: Byte)
    ensures d == a - b || d == b - a
  {
    if a > b then a - b else b - a
  }

  /** color_spectrum_value(center, value): full intensity near the centre,
      falling by 4 per step of distance beyond 32, and off from 96 on. */
  function SpectrumValue(center: Byte, value: Byte): (r: Byte)
    ensures r == 255 <==> Distance(center, value) <= 32
    ensures r == 0 <==> Distance(center, value) >= 96
    ensures 32 <= Distance(center, value) < 96 ==> r == 255 - 4 * (Distance(center, value) - 32)
  {
    var dif := Distance(center, value);
    if dif < 32 then 255
    else
      var rest := dif - 32;
      if rest >= 64 then 0 else 255 - rest * 4
  }

  /** Off the plateau and inside the cut-off, the value lies in [3, 251]. */
  lemma SpectrumBand(center: Byte, value: Byte)
    requires 32 < Distance(center, value) < 96
    ensures 3 <= SpectrumValue(center, value) <= 251
  {
  }

  /** The spectrum value depends only on the distance, so it is symmetric. */
  lemma SpectrumSymmetric(a: Byte, b: Byte)
    ensures SpectrumValue(a, b) == SpectrumValue(b, a)
  {
  }

  /** Farther from the centre is never brighter. */
  lemma SpectrumFalls(center: Byte, v1: Byte, v2: Byte)
    requires Distance(center, v1) <= Distance(center, v2)
    ensures SpectrumValue(center, v1) >= SpectrumValue(center, v2)
  {
  }

  // ------------------------------------------------------ tables

  /** Entry i of color_map_rgb::spectrum. */
  function SpectrumEntry(i: Byte): Rgb {
    Rgb(SpectrumValue(64, i), SpectrumValue(128, i), SpectrumValue(192, i))
  }

  function SpectrumTable(): (t: seq<Rgb>)
    ensures |t| == 256 && forall i :: 0 <= i < 256 ==> t[i] == SpectrumEntry(i)
  {
    seq(256, i requires 0 <= i < 256 => SpectrumEntry(i))
  }

  /** Channel of entry `index` of color_map_rgb::two_color: the weighted
      mean (to · index + from · (255 − index)) / 255, truncated. The float
      quotient of these integers truncates to the integer quotient. */
  function Ramp(from: Byte, to: Byte, index: Byte): (v: Byte)
  {
    var total := to * index + from * (255 - index);
    RampBound(from, to, index);
    total / 255
  }

  lemma RampBound(from: Byte, to: Byte, index: Byte)
    ensures 0 <= to * index + from * (255 - index) <= 255 * 255
  {
    var f: int, t: int, i: int := from, to, index;
    MulMono(t, 255, i);
    MulMono(f, 255, 255 - i);
    MulMono(0, t, i);
    MulMono(0, f, 255 - i);
    assert 255 * i + 255 * (255 - i) == 255 * 255;
  }

  /** With lo · 255 <= a <= hi · 255, the quotient a / 255 lies in [lo, hi]. */
  lemma QuotientBetween(a: int, lo: int, hi: int)
    requires 0 <= lo && lo * 255 <= a <= hi * 255
    ensures lo <= a / 255 <= hi
  {
    var q, r := a / 255, a % 255;
    DivModSplit(a, 255, q, r);
    if q < lo {
      MulMono(q + 1, lo, 255);
    }
    if q > hi {
      MulMono(hi + 1, q, 255);
    }
  }

  /** The ramp starts at `from`, ends at `to`, and never leaves the range
      between them. */
  lemma RampEnds(from: Byte, to: Byte, index: Byte)
    ensures Ramp(from, to, 0) == from && Ramp(from, to, 255) == to
    ensures (from <= to ==> from <= Ramp(from, to, index) <= to) && (to <= from ==> to <= Ramp(from, to, index) <= from)
  {
    var f: int, t: int, i: int := from, to, index;
    var total := t * i + f * (255 - i);
    RampBound(from, to, index);
    assert Ramp(from, to, index) == total / 255;
    DivModUnique(f * 255, 255, f, 0);
    DivModUnique(t * 255, 255, t, 0);
    if f <= t {
      Spread(f, t, i);
      QuotientBetween(total, f, t);
    } else {
      Spread(t, f, 255 - i);
      assert total == f * (255 - i) + t * (255 - (255 - i));
      QuotientBetween(total, t, f);
    }
  }

  /** a · (255 − i) + b · i lies between 255 · a and 255 · b for a <= b. */
  lemma Spread(a: int, b: int, i: int)
    requires 0 <= a <= b && 0 <= i <= 255
    ensures a * 255 <= b * i + a * (255 - i) <= b * 255
  {
    MulMono(a, b, i);
    MulMono(a, b, 255 - i);
    assert a * i + a * (255 - i) == a * 255;
    assert b * i + b * (255 - i) == b * 255;
  }

  function RampEntry(from: Rgb, to: Rgb, index: Byte): Rgb {
    Rgb(Ramp(from.r, to.r, index), Ramp(from.g, to.g, index), Ramp(from.b, to.b, index))
  }

  function TwoColorTable(from: Rgb, to: Rgb): (t: seq<Rgb>)
    ensures |t| == 256 && forall i :: 0 <= i < 256 ==> t[i] == RampEntry(from, to, i)
  {
    seq(256, i requires 0 <= i < 256 => RampEntry(from, to, i))
  }

  /** Entry 0 of the two-colour table is `from` and entry 255 is `to`. */
  lemma TwoColorEnds(from: Rgb, to: Rgb)
    ensures TwoColorTable(from, to)[0] == from && TwoColorTable(from, to)[255] == to
  {
    RampEnds(from.r, to.r, 0);
    RampEnds(from.g, to.g, 0);
    RampEnds(from.b, to.b, 0);
  }

  /** The RGB triples of a colour file: values 3k, 3k + 1, 3k + 2 form entry
      k; a trailing incomplete triple is dropped. */
  function Triples(values: seq<Byte>): (t: seq<Rgb>)
    ensures |t| == |values| / 3
    ensures forall k :: 0 <= k < |t| ==> 3 * k + 2 < |values| && t[k] == Rgb(values[3 * k], values[3 * k + 1], values[3 * k + 2])
  {
    seq(|values| / 3, k requires 0 <= k < |values| / 3 => Rgb(values[3 * k], values[3 * k + 1], values[3 * k + 2]))
  }

  /** A file of three values makes a one-entry table. */
  lemma ShortTableAfterLoad()
    ensures |Triples([0, 0, 0])| == 1 < 256
  {
  }

  // ------------------------------------------------------ color_map

  /** color_map: 256 colours of three real channels. */
  class ColorMap {
    var color: seq<Vec3>

    /** color_map(): 256 zero vectors. */
    constructor ()
      ensures |color| == 256
    {
      color := seq(256, _ => Vec3(0.0, 0.0, 0.0));
    }

    /** operator[](index) returns `color[255,index]`: the comma operator
        discards 255, so this is entry `index` itself, unclamped, and an
        index past the end is outside the source's defined behaviour. */
    function At(index: int): (c: Vec3)
      reads this
      requires 0 <= index < |color|
      ensures c == color[index]
    {
      color[index]
    }

    /** spectrum(): resizes to 256 and stores, per entry, the spectrum values
        around 192, 128 and 64 scaled to [0, 1]. */
    method Spectrum()
      modifies this
      ensures |color| == 256
      ensures forall i :: 0 <= i < 256 ==> color[i] == Scaled(i)
    {
      color := Resized(color, 256);
      var index := 0;
      while index < 256
        invariant 0 <= index <= 256 && |color| == 256
        invariant forall i :: 0 <= i < index ==> color[i] == Scaled(i)
      {
        color := color[index := Scaled(index)];
        index := index + 1;
      }
    }
  }

  /** std::vector::resize with value-initialised new entries. */
  function Resized(s: seq<Vec3>, n: nat): (r: seq<Vec3>)
    ensures |r| == n && forall i :: 0 <= i < n && i < |s| ==> r[i] == s[i]
  {
    if |s| >= n then s[..n] else s + seq(n - |s|, _ => Vec3(0.0, 0.0, 0.0))
  }

  /** Entry i of color_map::spectrum. */
  function Scaled(i: Byte): Vec3 {
    Vec3(SpectrumValue(192, i) as real / 255.0, SpectrumValue(128, i) as real / 255.0, SpectrumValue(64, i) as real / 255.0)
  }

  /** The two spectrum tables agree up to the channel order and the
      scale: color_map's channel 0 is color_map_rgb's channel 2 over 255,
      and the other way round. */
  lemma SpectraMirror(i: Byte)
    ensures Scaled(i) == Vec3(SpectrumEntry(i).b as real / 255.0, SpectrumEntry(i).g as real / 255.0, SpectrumEntry(i).r as real / 255.0)
  {
  }

  // ------------------------------------------------------ color_map_rgb

  class ColorMapRgb {
    var color: seq<Rgb>

    /** color_map_rgb(): 256 entries. */
    constructor ()
      ensures color == seq(256, _ => Black)
    {
      color := seq(256, _ => Black);
    }

    /** operator[](index): entry `index`; the source does not check it. */
    function At(index: int): (c: Rgb)
      reads this
      requires 0 <= index < |color|
      ensures c == color[index]
    {
      color[index]
    }

    /** min_color(): the first entry. */
    function MinColor(): (c: Rgb)
      reads this
      requires |color| > 0
      ensures c == color[0]
    {
      color[0]
    }

    /** max_color(): the last entry. */
    function MaxColor(): (c: Rgb)
      reads this
      requires |color| > 0
      ensures c == color[|color| - 1]
    {
      color[|color| - 1]
    }

    /** spectrum() as written: entries 0 .. 255 are overwritten in place
        without resizing, so a table shorter than 256 (as load_from_file
        can leave it) is written past its end; entries past 255 stay. */
    method SpectrumAsWritten()
      requires |color| >= 256
      modifies this
      ensures |color| == |old(color)| && color[..256] == SpectrumTable() && color[256..] == old(color[256..])
    {
      var index := 0;
      while index < 256
        invariant 0 <= index <= 256 && |color| == |old(color)|
        invariant color[..index] == SpectrumTable()[..index] && color[256..] == old(color[256..])
      {
        assert color[..index + 1] == color[..index] + [color[index]] by {
          assert color[..index + 1][..index] == color[..index];
        }
        color := color[index := SpectrumEntry(index)];
        assert color[..index + 1] == SpectrumTable()[..index + 1] by {
          assert forall i :: 0 <= i < index + 1 ==> color[i] == SpectrumTable()[i];
        }
        index := index + 1;
      }
    }

    /** spectrum(), as color_map does it: the table is first made 256 long,
        then every entry i becomes the spectrum values around 64, 128 and
        192. */
    method Spectrum()
      modifies this
      ensures color == SpectrumTable()
    {
      color := ResizedRgb(color, 256);
      var index := 0;
      while index < 256
        invariant 0 <= index <= 256 && |color| == 256
        invariant forall i :: 0 <= i < index ==> color[i] == SpectrumEntry(i)
      {
        color := color[index := SpectrumEntry(index)];
        index := index + 1;
      }
    }

    /** two_color(from, to) as written: in place, without resizing. */
    method TwoColorAsWritten(from: Rgb, to: Rgb)
      requires |color| >= 256
      modifies this
      ensures |color| == |old(color)| && color[..256] == TwoColorTable(from, to) && color[256..] == old(color[256..])
    {
      var index := 0;
      while index < 256
        invariant 0 <= index <= 256 && |color| == |old(color)|
        invariant forall i :: 0 <= i < index ==> color[i] == RampEntry(from, to, i)
        invariant color[256..] == old(color[256..])
      {
        var c := RampChannels(from, to, index, color[index]);
        color := color[index := c];
        index := index + 1;
      }
      assert color[..256] == TwoColorTable(from, to);
    }

    /** two_color(from, to) on a table made 256 long first. */
    method TwoColor(from: Rgb, to: Rgb)
      modifies this
      ensures color == TwoColorTable(from, to)
    {
      color := ResizedRgb(color, 256);
      var index := 0;
      while index < 256
        invariant 0 <= index <= 256 && |color| == 256
        invariant forall i :: 0 <= i < index ==> color[i] == RampEntry(from, to, i)
      {
        var c := RampChannels(from, to, index, color[index]);
        color := color[index := c];
        index := index + 1;
      }
    }

    /** load_from_file on the values read from the file (`readable` is
        whether it opened): fewer than three values fail and leave the
        table alone; otherwise the table is replaced by the file's RGB
        triples. */
    method LoadFromFile(readable: bool, values: seq<Byte>) returns (ok: bool)
      modifies this
      ensures ok <==> readable && |values| >= 3
      ensures ok ==> color == Triples(values)
      ensures !ok ==> color == old(color)
    {
      if !readable || |values| < 3 {
        return false;
      }
      color := [];
      var i := 2;
      while i < |values|
        invariant 2 <= i <= |values| + 2 && i % 3 == 2
        invariant color == Triples(values[..i - 2])
      {
        assert values[..i + 1][..i - 2] == values[..i - 2];
        color := color + [Rgb(values[i - 2], values[i - 1], values[i])];
        i := i + 3;
      }
      assert |values[..i - 2]| / 3 == |values| / 3;
      assert Triples(values[..i - 2]) == Triples(values);
      ok := true;
    }
  }

  function ResizedRgb(s: seq<Rgb>, n: nat): (r: seq<Rgb>)
    ensures |r| == n && forall i :: 0 <= i < n && i < |s| ==> r[i] == s[i]
  {
    if |s| >= n then s[..n] else s + seq(n - |s|, _ => Black)
  }

  /** The inner `rgb_index` loop of two_color: each channel of the entry. */
  method RampChannels(from: Rgb, to: Rgb, index: Byte, c0: Rgb) returns (c: Rgb)
    ensures c == RampEntry(from, to, index)
  {
    c := c0;
    var k := 0;
    while k < 3
      invariant 0 <= k <= 3
      invariant forall j :: 0 <= j < k ==> c.Channel(j) == Ramp(from.Channel(j), to.Channel(j), index)
    {
      c := c.WithChannel(k, Ramp(from.Channel(k), to.Channel(k), index));
      k := k + 1;
    }
    assert c.Channel(0) == c.r && c.Channel(1) == c.g && c.Channel(2) == c.b;
  }

  // ------------------------------------------------------ value_to_color

  /** r of set_range and set_color_map: entries per unit of value, 1 when
      the span is 0. */
  function Scale(size: nat, span: real): (r: real)
    ensures span == 0.0 ==> r == 1.0
    ensures span != 0.0 ==> r * span == size as real
  {
    if span == 0.0 then 1.0 else size as real / span
  }

  /** int(floor(value)) clamped to [0, size − 1]. */
  function Clamp(x: int, size: nat): (i: nat)
    requires size > 0
    ensures i < size
    ensures 0 <= x < size ==> i == x
    ensures x < 0 ==> i == 0
    ensures x >= size ==> i == size - 1
  {
    if x < 0 then 0 else if x >= size then size - 1 else x
  }

  class ValueToColor {
    var minValue: real
    var maxValue: real
    var r: real
    /** The entries of the owned color_map_rgb. */
    var table: seq<Rgb>

    /** value_to_color(): min_value 0, r 1, a 256-entry map. The source
        leaves max_value uninitialised; the model starts it at 0. */
    constructor ()
      ensures minValue == 0.0 && r == 1.0 && maxValue == 0.0 && table == seq(256, _ => Black)
    {
      minValue, maxValue, r := 0.0, 0.0, 1.0;
      table := seq(256, _ => Black);
    }

    method SetRange(lo: real, hi: real)
      modifies this
      ensures minValue == lo && maxValue == hi && r == Scale(|table|, hi - lo) && table == old(table)
    {
      minValue := lo;
      maxValue := hi;
      var span := hi - lo;
      r := if span == 0.0 then 1.0 else |table| as real / span;
    }

    method SetColorMap(rhs: seq<Rgb>)
      modifies this
      ensures table == rhs && r == Scale(|rhs|, maxValue - minValue)
      ensures minValue == old(minValue) && maxValue == old(maxValue)
    {
      table := rhs;
      r := maxValue - minValue;
      r := if r == 0.0 then 1.0 else |table| as real / r;
    }

    /** two_color(from, to) on the owned map: color_map_rgb::two_color as
        written, which overwrites entries 0..255 in place and keeps any
        entries beyond them; r is not recomputed. */
    method TwoColor(from: Rgb, to: Rgb)
      requires |table| >= 256
      modifies this
      ensures |table| == |old(table)| && table[..256] == TwoColorTable(from, to) && table[256..] == old(table[256..])
      ensures minValue == old(minValue) && maxValue == old(maxValue) && r == old(r)
    {
      table := TwoColorTable(from, to) + table[256..];
    }

    /** The table position operator[] reads: (value − min_value) · r,
        floored and clamped to the map. */
    function IndexOf(value: real): (i: nat)
      reads this
      requires |table| > 0
      ensures i < |table|
    {
      Clamp(((value - minValue) * r).Floor, |table|)
    }

    /** operator[](value): the colour at the clamped position. */
    function Get(value: real): (c: Rgb)
      reads this
      requires |table| > 0
      ensures c == table[IndexOf(value)]
    {
      table[IndexOf(value)]
    }

    /** convert: every value of the image mapped to its colour. */
    method Convert(values: seq<real>) returns (out: seq<Rgb>)
      requires |table| > 0
      ensures |out| == |values| && forall i :: 0 <= i < |values| ==> out[i] == Get(values[i])
    {
      out := seq(|values|, _ => Black);
      var i := 0;
      while i < |values|
        invariant 0 <= i <= |values| && |out| == |values|
        invariant forall j :: 0 <= j < i ==> out[j] == Get(values[j])
      {
        out := out[i := Get(values[i])];
        i := i + 1;
      }
    }
  }

  /** Multiplying by a non-negative real preserves order. */
  lemma RealMulMono(a: real, b: real, c: real)
    requires a <= b && c >= 0.0
    ensures a * c <= b * c
  {
    assert b * c - a * c == (b - a) * c;
  }

  /** Strict version for a positive factor. */
  lemma RealMulStrict(a: real, b: real, c: real)
    requires a < b && c > 0.0
    ensures a * c < b * c
  {
    assert b * c - a * c == (b - a) * c;
  }

  lemma FloorMono(x: real, y: real)
    requires x <= y
    ensures x.Floor <= y.Floor
  {
  }

  /** After set_range(lo, hi) with lo < hi on a map of n entries, a value
      at or below lo takes the first colour, one at or above hi the last,
      and one in between entry ⌊(value − lo) · r⌋ with r = n / (hi − lo),
      unclamped. */
  lemma RangeIndex(lo: real, hi: real, n: nat, value: real)
    requires lo < hi && n > 0
    ensures var x := ((value - lo) * Scale(n, hi - lo)).Floor;
      && (value <= lo ==> Clamp(x, n) == 0)
      && (value >= hi ==> Clamp(x, n) == n - 1)
      && (lo <= value < hi ==> Clamp(x, n) == x)
  {
    var span, d := hi - lo, value - lo;
    var s := Scale(n, span);
    var y := d * s;
    var full := span * s;
    assert full == n as real;
    assert s == (n as real) / span;
    assert s > 0.0;
    if value <= lo {
      RealMulMono(d, 0.0, s);
      assert y <= 0.0;
    }
    if value >= hi {
      RealMulMono(span, d, s);
      assert full <= y;
    }
    if lo <= value < hi {
      RealMulMono(0.0, d, s);
      RealMulStrict(d, span, s);
      assert 0.0 <= y < n as real;
    }
  }

  /** With r > 0, a larger value never maps to an earlier colour. */
  lemma IndexMonotone(minValue: real, r: real, n: nat, v1: real, v2: real)
    requires r > 0.0 && n > 0 && v1 <= v2
    ensures Clamp(((v1 - minValue) * r).Floor, n) <= Clamp(((v2 - minValue) * r).Floor, n)
  {
    var a, b := v1 - minValue, v2 - minValue;
    RealMulMono(a, b, r);
    var x, y := a * r, b * r;
    FloorMono(x, y);
  }
}
