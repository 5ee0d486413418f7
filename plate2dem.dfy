/**
 * The pure pieces of the plate2dem tool, which cuts a plate file into
 * georeferenced GeoTIFF tiles: the PDS imagery pixel conversion, the tile
 * file name, the shift of each tile box into output coordinates, the
 * default output prefix, and what the PDS DEM export writes for
 * transparent pixels.
 */
module Plate2Dem {
  import opened Wrappers
  import opened ImageView
  import opened BBox
  import opened PixelMask

  // ---------------------------------------------------------------------
  // ConvertToPDSImagery
  // ---------------------------------------------------------------------

  /** The no-data value of PDS imagery; 255 is reserved and never produced. */
  const PdsImageryNodata: int := 0

  /**
   * One non-alpha channel of a non-transparent pixel: scaled by 253 over the
   * input channel type's maximum, clamped to [0, 253], truncated to uint8,
   * plus one.
   */
  function PdsChannel(x: real, channelMax: real): (v: int)
    requires channelMax > 0.0
    ensures 1 <= v <= 254
  {
    var scaled := x * 253.0 / channelMax;
    var clamped := if scaled < 0.0 then 0.0 else if scaled > 253.0 then 253.0 else scaled;
    clamped.Floor + 1
  }

  /**
   * ConvertToPDSImagery::operator() on a pixel whose non-alpha channels,
   * cast to double, are `color`: the transparent pixel becomes the all-zero
   * pixel, any other the per-channel conversion. The alpha channel has no
   * counterpart in the output.
   */
  function PdsPixel(color: seq<real>, transparent: bool, channelMax: real): (out: seq<int>)
    requires channelMax > 0.0
    ensures |out| == |color|
  {
    if transparent then seq(|color|, _ => 0)
    else seq(|color|, i requires 0 <= i < |color| => PdsChannel(color[i], channelMax))
  }

  /** The conversion as the source runs it: scale every channel, clamp each
      in a loop, then cast and add one. */
  method ConvertToPdsImagery(color: seq<real>, transparent: bool, channelMax: real) returns (out: seq<int>)
    requires channelMax > 0.0
    ensures out == PdsPixel(color, transparent, channelMax)
  {
    if transparent {
      return seq(|color|, _ => 0);
    }
    var result := seq(|color|, i requires 0 <= i < |color| => color[i] * 253.0 / channelMax);
    var i := 0;
    while i < |result|
      invariant 0 <= i <= |result| == |color|
      invariant forall k :: 0 <= k < i ==> 0.0 <= result[k] <= 253.0
      invariant forall k :: 0 <= k < i ==> result[k].Floor + 1 == PdsChannel(color[k], channelMax)
      invariant forall k :: i <= k < |result| ==> result[k] == color[k] * 253.0 / channelMax
    {
      if result[i] < 0.0 {
        result := result[i := 0.0];
      }
      if result[i] > 253.0 {
        result := result[i := 253.0];
      }
      i := i + 1;
    }
    out := seq(|result|, k requires 0 <= k < |result| => result[k].Floor + 1);
  }

  /** Output values tell the two cases apart: a transparent pixel is all
      no-data, every channel of any other pixel lies in 1..254. */
  lemma PdsPixelRange(color: seq<real>, transparent: bool, channelMax: real)
    requires channelMax > 0.0
    ensures transparent ==> forall i :: 0 <= i < |color| ==> PdsPixel(color, transparent, channelMax)[i] == PdsImageryNodata
    ensures !transparent ==> forall i :: 0 <= i < |color| ==> 1 <= PdsPixel(color, transparent, channelMax)[i] <= 254
  {
  }

  /** Brighter input never gives darker output. */
  lemma PdsChannelMonotone(x: real, y: real, channelMax: real)
    requires channelMax > 0.0 && x <= y
    ensures PdsChannel(x, channelMax) <= PdsChannel(y, channelMax)
  {
    assert x * 253.0 <= y * 253.0;
    assert x * 253.0 / channelMax <= y * 253.0 / channelMax by {
      DivideMonotone(x * 253.0, y * 253.0, channelMax);
    }
  }

  lemma DivideMonotone(a: real, b: real, d: real)
    requires a <= b && d > 0.0
    ensures a / d <= b / d
  {
    assert b / d - a / d == (b - a) / d;
  }

  /** The ends of the input range map to the ends of the valid output range:
      zero (and anything below) to 1, the channel maximum (and anything
      above) to 254. */
  lemma PdsChannelEnds(x: real, channelMax: real)
    requires channelMax > 0.0
    ensures x <= 0.0 ==> PdsChannel(x, channelMax) == 1
    ensures x >= channelMax ==> PdsChannel(x, channelMax) == 254
  {
    if x <= 0.0 {
      DivideMonotone(x * 253.0, 0.0, channelMax);
    }
    if x >= channelMax {
      DivideMonotone(channelMax * 253.0, x * 253.0, channelMax);
      assert channelMax * 253.0 / channelMax == 253.0;
    }
  }

  // ---------------------------------------------------------------------
  // Tile file names
  // ---------------------------------------------------------------------

  /** int32(x): conversion of a double to an integer, truncating toward zero. */
  function TruncToInt(x: real): (n: int)
    ensures x >= 0.0 ==> n as real <= x < n as real + 1.0
    ensures x < 0.0 ==> n as real - 1.0 < x <= n as real
  {
    if x >= 0.0 then x.Floor else -((-x).Floor)
  }

  function Abs(n: int): nat {
    if n < 0 then -n else n
  }

  predicate IsDigit(c: char) {
    '0' <= c <= '9'
  }

  predicate AllDigits(s: string) {
    forall i :: 0 <= i < |s| ==> IsDigit(s[i])
  }

  /** The value of a string of decimal digits. */
  function DigitsValue(s: string): nat
    requires AllDigits(s)
  {
    if s == [] then 0 else DigitsValue(s[..|s| - 1]) * 10 + (s[|s| - 1] - '0') as int
  }

  /** operator<< of a non-negative integer: its decimal digits. */
  function Decimal(n: nat): (s: string)
    ensures s != [] && AllDigits(s) && DigitsValue(s) == n
  {
    if n < 10 then [('0' as int + n) as char]
    else
      var s := Decimal(n / 10) + [('0' as int + n % 10) as char];
      assert s[..|s| - 1] == Decimal(n / 10);
      s
  }

  /** Splits off the longest prefix of decimal digits. */
  function SplitDigits(s: string): (r: (string, string))
    ensures r.0 + r.1 == s && AllDigits(r.0)
    ensures r.1 == [] || !IsDigit(r.1[0])
  {
    if s == [] || !IsDigit(s[0]) then ([], s)
    else
      var (d, rest) := SplitDigits(s[1..]);
      ([s[0]] + d, rest)
  }

  /** What a tile name records: the truncated degrees and the hemispheres. */
  datatype TileKey = TileKey(lonDegrees: nat, west: bool, latDegrees: nat, north: bool)

  /** The key of the tile whose top-left corner is at (lon, lat). */
  function KeyOf(lon: real, lat: real): TileKey {
    TileKey(Abs(TruncToInt(lon)), lon < 0.0, Abs(TruncToInt(lat)), lat >= 0.0)
  }

  function TileName(prefix: string, k: TileKey): string {
    prefix + "_" + Decimal(k.lonDegrees) + (if k.west then "W_" else "E_")
      + Decimal(k.latDegrees) + (if k.north then "N.tif" else "S.tif")
  }

  /** The output file name do_tiles builds for a tile whose top-left corner is at (lon, lat). */
  function TileFilename(prefix: string, lon: real, lat: real): (name: string)
    ensures ParseTileName(prefix, name) == Some(KeyOf(lon, lat))
  {
    TileNameRoundTrip(prefix, KeyOf(lon, lat));
    TileName(prefix, KeyOf(lon, lat))
  }

  /** Reads a tile name back, given the prefix it was built with. */
  function ParseTileName(prefix: string, name: string): Option<TileKey> {
    if |name| <= |prefix| || name[..|prefix| + 1] != prefix + "_" then None
    else ParseKey(name[|prefix| + 1..])
  }

  /** Reads "<lon>W_" or "<lon>E_" and then the latitude part. */
  function ParseKey(s: string): Option<TileKey> {
    var (d, r) := SplitDigits(s);
    if d == [] || |r| < 2 || r[1] != '_' || (r[0] != 'W' && r[0] != 'E') then None
    else match ParseLatitude(r[2..])
      case None => None
      case Some((lat, north)) => Some(TileKey(DigitsValue(d), r[0] == 'W', lat, north))
  }

  /** Reads "<lat>N.tif" or "<lat>S.tif". */
  function ParseLatitude(s: string): Option<(nat, bool)> {
    var (d, r) := SplitDigits(s);
    if d == [] || (r != "N.tif" && r != "S.tif") then None
    else Some((DigitsValue(d), r == "N.tif"))
  }

  /** Splitting digits followed by a non-digit gives back exactly those digits. */
  lemma {:induction false} SplitDigitsAt(d: string, t: string)
    requires AllDigits(d) && (t == [] || !IsDigit(t[0]))
    ensures SplitDigits(d + t) == (d, t)
  {
    if d != [] {
      assert (d + t)[0] == d[0] && IsDigit(d[0]);
      assert (d + t)[1..] == d[1..] + t;
      SplitDigitsAt(d[1..], t);
      assert [d[0]] + d[1..] == d;
    } else {
      assert d + t == t;
    }
  }

  lemma LatitudeRoundTrip(lat: nat, north: bool)
    ensures ParseLatitude(Decimal(lat) + (if north then "N.tif" else "S.tif")) == Some((lat, north))
  {
    SplitDigitsAt(Decimal(lat), if north then "N.tif" else "S.tif");
  }

  lemma KeyRoundTrip(k: TileKey)
    ensures ParseKey(Decimal(k.lonDegrees) + (if k.west then "W_" else "E_")
                     + Decimal(k.latDegrees) + (if k.north then "N.tif" else "S.tif")) == Some(k)
  {
    var ew := if k.west then "W_" else "E_";
    var lat := Decimal(k.latDegrees) + (if k.north then "N.tif" else "S.tif");
    assert Decimal(k.lonDegrees) + ew + Decimal(k.latDegrees) + (if k.north then "N.tif" else "S.tif")
        == Decimal(k.lonDegrees) + (ew + lat);
    SplitDigitsAt(Decimal(k.lonDegrees), ew + lat);
    assert (ew + lat)[2..] == lat;
    LatitudeRoundTrip(k.latDegrees, k.north);
  }

  /** A tile name determines its key. */
  lemma TileNameRoundTrip(prefix: string, k: TileKey)
    ensures ParseTileName(prefix, TileName(prefix, k)) == Some(k)
  {
    var rest := Decimal(k.lonDegrees) + (if k.west then "W_" else "E_")
                + Decimal(k.latDegrees) + (if k.north then "N.tif" else "S.tif");
    var name := TileName(prefix, k);
    assert name == (prefix + "_") + rest;
    assert name[..|prefix| + 1] == prefix + "_";
    assert name[|prefix| + 1..] == rest;
    KeyRoundTrip(k);
  }

  /** Distinct tile keys give distinct file names, so two tiles overwrite one
      another only when their truncated corners and hemispheres coincide. */
  lemma TileFilenameDeterminesKey(prefix: string, lon1: real, lat1: real, lon2: real, lat2: real)
    requires TileFilename(prefix, lon1, lat1) == TileFilename(prefix, lon2, lat2)
    ensures KeyOf(lon1, lat1) == KeyOf(lon2, lat2)
  {
    TileNameRoundTrip(prefix, KeyOf(lon1, lat1));
    TileNameRoundTrip(prefix, KeyOf(lon2, lat2));
  }

  /** A corner just west of the meridian and one just east of it share the
      degree count 0 but not the hemisphere letter. */
  lemma TileFilenameNearMeridian()
    ensures TileFilename("moon", -0.5, 10.0) == "moon_0W_10N.tif"
    ensures TileFilename("moon", 0.5, -10.0) == "moon_0E_10S.tif"
  {
    assert KeyOf(-0.5, 10.0) == TileKey(0, true, 10, true);
    assert KeyOf(0.5, -10.0) == TileKey(0, false, 10, false);
    assert Decimal(10) == "10" by {
      assert Decimal(10) == Decimal(1) + ['0'];
    }
    assert TileName("moon", TileKey(0, true, 10, true)) == "moon_0W_10N.tif";
    assert TileName("moon", TileKey(0, false, 10, false)) == "moon_0E_10S.tif";
  }

  // ---------------------------------------------------------------------
  // Tile boxes
  // ---------------------------------------------------------------------

  /** Every tile box shifted by the output box's min corner. */
  function Offset(boxes: seq<BBox2i>, outputBox: BBox2i): (r: seq<BBox2i>)
    ensures |r| == |boxes|
  {
    seq(|boxes|, i requires 0 <= i < |boxes| => Translate(boxes[i], outputBox.minX, outputBox.minY))
  }

  /** The loop of do_tiles that moves each crop box from crop coordinates to
      output-image coordinates, in place. */
  method OffsetTileBoxes(boxes: array<BBox2i>, outputBox: BBox2i)
    modifies boxes
    ensures boxes[..] == Offset(old(boxes[..]), outputBox)
  {
    var i := 0;
    while i < boxes.Length
      invariant 0 <= i <= boxes.Length
      invariant forall k :: 0 <= k < i ==> boxes[k] == Translate(old(boxes[k]), outputBox.minX, outputBox.minY)
      invariant forall k :: i <= k < boxes.Length ==> boxes[k] == old(boxes[k])
    {
      var b := boxes[i];
      boxes[i] := BBox2i(b.minX + outputBox.minX, b.minY + outputBox.minY,
                         b.maxX + outputBox.minX, b.maxY + outputBox.minY);
      i := i + 1;
    }
  }

  /** Offsetting keeps every tile's size and every tile's position relative
      to every other, and a tile at the crop origin lands on the output
      box's min corner. */
  lemma OffsetKeepsLayout(boxes: seq<BBox2i>, outputBox: BBox2i)
    ensures forall i :: 0 <= i < |boxes| ==>
      Width(Offset(boxes, outputBox)[i]) == Width(boxes[i]) && Height(Offset(boxes, outputBox)[i]) == Height(boxes[i])
    ensures forall i, j :: 0 <= i < |boxes| && 0 <= j < |boxes| ==>
      Offset(boxes, outputBox)[i].minX - Offset(boxes, outputBox)[j].minX == boxes[i].minX - boxes[j].minX &&
      Offset(boxes, outputBox)[i].minY - Offset(boxes, outputBox)[j].minY == boxes[i].minY - boxes[j].minY
    ensures forall i :: 0 <= i < |boxes| && boxes[i].minX == 0 && boxes[i].minY == 0 ==>
      Offset(boxes, outputBox)[i].minX == outputBox.minX && Offset(boxes, outputBox)[i].minY == outputBox.minY
  {
  }

  // ---------------------------------------------------------------------
  // The default output prefix
  // ---------------------------------------------------------------------

  /** The position of the last c in s (std::string::rfind), if any. */
  function LastIndexOf(s: string, c: char): (r: Option<nat>)
    ensures r.Some? ==> r.value < |s| && s[r.value] == c && forall k :: r.value < k < |s| ==> s[k] != c
    ensures r.None? ==> forall k :: 0 <= k < |s| ==> s[k] != c
  {
    if s == [] then None
    else if s[|s| - 1] == c then Some(|s| - 1)
    else LastIndexOf(s[..|s| - 1], c)
  }

  /** Everything after the last c, or all of s when it has none. */
  function AfterLast(s: string, c: char): (r: string)
    ensures c !in r
    ensures |r| <= |s| && r == s[|s| - |r|..]
  {
    match LastIndexOf(s, c)
    case None => s
    case Some(i) => s[i + 1..]
  }

  /** The last component of a path. */
  function PathFilename(path: string): string {
    AfterLast(path, '/')
  }

  /** path::stem(): the last component without its extension (from its last '.'). */
  function Stem(path: string): string {
    var name := PathFilename(path);
    match LastIndexOf(name, '.')
    case None => name
    case Some(i) => name[..i]
  }

  /** The prefix handle_arguments derives from the plate file name when none is given. */
  function DefaultOutputPrefix(plateFileName: string): (prefix: string)
    ensures '/' !in prefix
  {
    AfterLast(Stem(plateFileName), '/')
  }

  datatype ArgumentError = MissingInputPlatefile

  /** The output prefix after argument handling: the given one, or the
      default; a missing plate file name is an argument error. */
  function OutputPrefix(given: string, plateFileName: string): (r: Result<string, ArgumentError>)
    ensures r.Err? <==> plateFileName == ""
    ensures r.Err? ==> r.error == MissingInputPlatefile
    ensures r.Ok? && given != "" ==> r.value == given
    ensures r.Ok? && given == "" ==> r.value == DefaultOutputPrefix(plateFileName)
  {
    if plateFileName == "" then Err(MissingInputPlatefile)
    else if given == "" then Ok(DefaultOutputPrefix(plateFileName))
    else Ok(given)
  }

  /** The default prefix is the plate file's base name up to its extension:
      it holds no directory part, and for "dir/name.ext" with a plain name
      and extension it is exactly "name". */
  lemma DefaultOutputPrefixSpec(dir: string, name: string, ext: string)
    requires '/' !in name && '.' !in name && '/' !in ext && '.' !in ext
    ensures '/' !in DefaultOutputPrefix(dir)
    ensures DefaultOutputPrefix(dir + "/" + name + "." + ext) == name
  {
    var path := dir + "/" + name + "." + ext;
    var idx := |dir|;
    assert path[idx] == '/';
    assert path[idx + 1..] == name + "." + ext;
    LastIndexOfSuffix(path, '/', idx);
    assert PathFilename(path) == name + "." + ext;
    var f := name + "." + ext;
    assert f[|name|] == '.';
    LastIndexOfSuffix(f, '.', |name|);
    assert Stem(path) == name;
    NoneAfterLast(name, '/');
  }

  lemma LastIndexOfSuffix(s: string, c: char, i: nat)
    requires i < |s| && s[i] == c && forall k :: i < k < |s| ==> s[k] != c
    ensures LastIndexOf(s, c) == Some(i)
  {
  }

  lemma NoneAfterLast(s: string, c: char)
    requires c !in s
    ensures AfterLast(s, c) == s
  {
  }

  /** A missing plate file is an argument error; otherwise a given prefix is
      kept and an empty one is replaced by the default, which has no '/'. */
  lemma OutputPrefixChoice(given: string, plateFileName: string)
    ensures plateFileName == "" ==> OutputPrefix(given, plateFileName) == Err(MissingInputPlatefile)
    ensures plateFileName != "" && given != "" ==> OutputPrefix(given, plateFileName) == Ok(given)
    ensures plateFileName != "" && given == "" ==>
      OutputPrefix(given, plateFileName).Ok? && '/' !in OutputPrefix(given, plateFileName).value
  {
  }

  // ---------------------------------------------------------------------
  // The PDS DEM export
  // ---------------------------------------------------------------------

  /** int16 channels: ChannelRange<int16>::min(), max() and int16(). */
  const Int16Range: ChannelRange<int> := ChannelRange(-32768, 32767, 0)

  /** The value the PDS DEM export declares as no-data and passes to apply_mask. */
  const PdsDemNodata: int := -32767

  /**
   * The DEM export turns the alpha channel into a mask and unmasks it with
   * apply_mask(..., -32767). What that writes for an invalid pixel depends
   * on the validity value the pixel carries:
   * - validity channel_type() (0, as the converting constructor gives): as
   *   written the dropped replacement makes it 0 in every channel, while
   *   the corrected view writes the declared no-data value -32767;
   * - validity ChannelRange<int16>::min() (-32768, as the default
   *   constructor and invalidate() give): that value is truthy, so the pixel
   *   reads as valid and its child is written, under either form.
   */
  lemma PdsDemInvalidPixels(masked: View<PixelMask<int>>, n: nat, col: int, row: int, plane: int)
    requires n > 0
    ensures var px := masked.pixel(col, row, plane);
      px.valid == Int16Range.zero ==>
        ApplyAt(ApplyMask(masked, seq(n, _ => PdsDemNodata), Int16Range), col, row, plane) == Zeros(n, Int16Range) &&
        ApplyAt(ApplyMask(masked, seq(n, _ => PdsDemNodata), Int16Range), col, row, plane)[0] != PdsDemNodata &&
        ApplyAt(ApplyMaskIntended(masked, seq(n, _ => PdsDemNodata), Int16Range), col, row, plane) == seq(n, _ => PdsDemNodata)
    ensures var px := masked.pixel(col, row, plane);
      px.valid == Int16Range.min ==>
        ApplyAt(ApplyMask(masked, seq(n, _ => PdsDemNodata), Int16Range), col, row, plane) == px.child &&
        ApplyAt(ApplyMaskIntended(masked, seq(n, _ => PdsDemNodata), Int16Range), col, row, plane) == px.child
  {
  }
}
