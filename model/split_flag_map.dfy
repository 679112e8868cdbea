/**
 * `SplitFlagMap`: the collision data, one flag map per 64x64 map region, kept in an array indexed
 * by the region's offset from the lowest region coordinates seen. Region coordinates travel
 * packed into one int, x in the low 16 bits and y in the high 16 bits.
 */
module SplitFlagMaps {
  import opened Wrappers
  import opened JavaStrings
  import opened JavaInts
  import TransportRules

  /** `Constants.REGION_SIZE`: a region is 64 tiles wide and high. */
  const REGION_SIZE: int := 64

  /** The low 16 bits of an int's bit pattern: `n & 0xFFFF`. */
  function Low16(n: int): (r: int)
    requires IsInt32(n)
    ensures 0 <= r <= 0xFFFF
  {
    Unsigned(n) % 0x1_0000
  }

  /** Bits 16 to 31 of an int's bit pattern, moved down: `(n >> 16) & 0xFFFF`. */
  function High16(n: int): (r: int)
    requires IsInt32(n)
    ensures 0 <= r <= 0xFFFF
  {
    Unsigned(n) / 0x1_0000 % 0x1_0000
  }

  /** `unpackX`: the region x of a packed position. */
  function UnpackX(position: int): int
    requires IsInt32(position)
  {
    Low16(position)
  }

  /** `unpackY`: the region y of a packed position. */
  function UnpackY(position: int): int
    requires IsInt32(position)
  {
    High16(position)
  }

  /**
   * `packPosition`: `(x & 0xFFFF) | ((y & 0xFFFF) << 16)`. The two masked halves occupy disjoint
   * bits, so the OR is their sum, and the shifted half fills the top bits of the int.
   */
  function PackPosition(x: int, y: int): int
    requires IsInt32(x) && IsInt32(y)
  {
    Signed(Low16(x) + Low16(y) * 0x1_0000)
  }

  /** Unpacking a packed position gives back the low 16 bits of each coordinate. */
  lemma UnpackPacked(x: int, y: int)
    requires IsInt32(x) && IsInt32(y)
    ensures IsInt32(PackPosition(x, y))
    ensures UnpackX(PackPosition(x, y)) == Low16(x)
    ensures UnpackY(PackPosition(x, y)) == Low16(y)
  {
    var u := Low16(x) + Low16(y) * 0x1_0000;
    assert Unsigned(Signed(u)) == u;
  }

  /** Region coordinates from 0 to 0xFFFF survive packing and unpacking unchanged. */
  lemma PackRoundTrip(x: int, y: int)
    requires 0 <= x <= 0xFFFF && 0 <= y <= 0xFFFF
    ensures UnpackX(PackPosition(x, y)) == x && UnpackY(PackPosition(x, y)) == y
  {
    UnpackPacked(x, y);
  }

  /** Every int is the packing of its own unpacked halves. */
  lemma PackUnpacked(position: int)
    requires IsInt32(position)
    ensures PackPosition(UnpackX(position), UnpackY(position)) == position
  {
    var u := Unsigned(position);
    assert u == u % 0x1_0000 + (u / 0x1_0000 % 0x1_0000) * 0x1_0000;
  }

  /** Distinct region coordinates from 0 to 0xFFFF pack to distinct ints. */
  lemma PackInjective(x1: int, y1: int, x2: int, y2: int)
    requires 0 <= x1 <= 0xFFFF && 0 <= y1 <= 0xFFFF && 0 <= x2 <= 0xFFFF && 0 <= y2 <= 0xFFFF
    requires PackPosition(x1, y1) == PackPosition(x2, y2)
    ensures x1 == x2 && y1 == y2
  {
    PackRoundTrip(x1, y1);
    PackRoundTrip(x2, y2);
  }

  /** Java's `/` rounds toward zero, unlike Dafny's. */
  function JavaDiv(a: int, b: int): (q: int)
    requires b > 0
    ensures a >= 0 ==> q == a / b
    ensures a < 0 ==> q == -((-a) / b)
  {
    if a >= 0 then a / b else -((-a) / b)
  }

  /** The number of cells in a `w` by `h` grid. */
  function Area(w: int, h: int): int {
    w * h
  }

  /** `RegionExtent`: the lowest and highest region coordinates seen. */
  datatype RegionExtent = RegionExtent(minX: int, minY: int, maxX: int, maxY: int)
  {
    /** `getWidth() + 1` as Java ints: the number of region columns. */
    function WidthInclusive(): int {
      Wrap32(Wrap32(maxX - minX) + 1)
    }

    /** `getHeight() + 1` as Java ints: the number of region rows. */
    function HeightInclusive(): int {
      Wrap32(Wrap32(maxY - minY) + 1)
    }

    /** The length of the region array, `widthInclusive * heightInclusive` as Java ints. */
    function SlotCount(): int {
      Wrap32(WidthInclusive() * HeightInclusive())
    }

    /** `getIndex`: `(regionX - minX) + (regionY - minY) * widthInclusive` as Java ints. */
    function Index(regionX: int, regionY: int): int {
      Wrap32(Wrap32(regionX - minX) + Wrap32(Wrap32(regionY - minY) * WidthInclusive()))
    }

    predicate Contains(regionX: int, regionY: int) {
      minX <= regionX <= maxX && minY <= regionY <= maxY
    }

    /** The extent is non-empty and its region count fits in an int. */
    predicate Fits() {
      minX <= maxX && minY <= maxY && Area(maxX - minX + 1, maxY - minY + 1) <= INT_MAX
    }
  }

  /** The extent before any region is read: `Integer.MAX_VALUE` minima, `Integer.MIN_VALUE` maxima. */
  const NO_EXTENT := RegionExtent(INT_MAX, INT_MAX, INT_MIN, INT_MIN)

  /**
   * With no region read, the width and height wrap around to 1, so the array has 4 slots: an
   * empty collision map still builds.
   */
  lemma NoExtentSlots()
    ensures NO_EXTENT.WidthInclusive() == 2 && NO_EXTENT.HeightInclusive() == 2
    ensures NO_EXTENT.SlotCount() == 4
  {
  }

  lemma MulAtLeast(d: int, w: int)
    requires 1 <= d && 0 < w
    ensures w <= d * w
  {
  }

  lemma Distribute(a1: int, a2: int, w: int)
    ensures a2 * w - a1 * w == (a2 - a1) * w
  {
  }

  lemma MulStep(a1: int, a2: int, w: int)
    requires a1 < a2 && 0 < w
    ensures a1 * w + w <= a2 * w
  {
    MulAtLeast(a2 - a1, w);
    Distribute(a1, a2, w);
  }

  /** A row-major index of a cell inside an `h` by `w` grid lies inside the grid's cell count. */
  lemma MulLess(a: int, b: int, w: int, h: int)
    requires 0 <= a < h && 0 <= b < w
    ensures 0 <= a * w + b < h * w
  {
    MulStep(a, h, w);
    MulAtLeast(a + 1, w);
  }

  /** A row-major index determines its row and column. */
  lemma MulCancel(a1: int, b1: int, a2: int, b2: int, w: int)
    requires 0 <= b1 < w && 0 <= b2 < w
    requires a1 * w + b1 == a2 * w + b2
    ensures a1 == a2 && b1 == b2
  {
    if a1 < a2 {
      MulStep(a1, a2, w);
    } else if a2 < a1 {
      MulStep(a2, a1, w);
    }
  }

  /**
   * In an extent that fits, no int wraps: the width and the slot count are the plain ones, and a
   * region inside the extent has the row-major index `(x - minX) + (y - minY) * width`, which lies
   * inside the array.
   */
  lemma IndexInside(e: RegionExtent, x: int, y: int)
    requires e.Fits() && e.Contains(x, y)
    ensures e.WidthInclusive() == e.maxX - e.minX + 1 && e.HeightInclusive() == e.maxY - e.minY + 1
    ensures e.SlotCount() == (e.maxX - e.minX + 1) * (e.maxY - e.minY + 1)
    ensures e.Index(x, y) == (x - e.minX) + (y - e.minY) * (e.maxX - e.minX + 1)
    ensures 0 <= e.Index(x, y) < e.SlotCount()
  {
    var w, h := e.maxX - e.minX + 1, e.maxY - e.minY + 1;
    var row := y - e.minY;
    MulLess(row, x - e.minX, w, h);
    MulAtLeast(h, w);
    MulAtLeast(w, h);
    assert w <= INT_MAX && h <= INT_MAX;
    assert e.WidthInclusive() == w;
    assert e.HeightInclusive() == h;
    assert Wrap32(row) * e.WidthInclusive() == row * w;
  }

  /** Distinct regions inside an extent that fits have distinct indices. */
  lemma IndexInjective(e: RegionExtent, x1: int, y1: int, x2: int, y2: int)
    requires e.Fits() && e.Contains(x1, y1) && e.Contains(x2, y2)
    requires e.Index(x1, y1) == e.Index(x2, y2)
    ensures x1 == x2 && y1 == y2
  {
    IndexInside(e, x1, y1);
    IndexInside(e, x2, y2);
    MulCancel(y1 - e.minY, x1 - e.minX, y2 - e.minY, x2 - e.minX, e.maxX - e.minX + 1);
  }

  /**
   * Only the index is bounds-checked, not the coordinates: the region just past the right edge
   * of one row has the index of the first region of the next row.
   */
  lemma IndexWrapsToNextRow(e: RegionExtent, y: int)
    requires e.Fits() && e.minY <= y < e.maxY
    ensures e.Index(e.maxX + 1, y) == e.Index(e.minX, y + 1)
    ensures 0 <= e.Index(e.maxX + 1, y) < e.SlotCount()
  {
    IndexInside(e, e.minX, y + 1);
    var w := e.maxX - e.minX + 1;
    assert (y + 1 - e.minY) * w == (y - e.minY) * w + w;
    MulLess(y - e.minY, w - 1, w, e.maxY - e.minY + 1);
  }

  /** `FlagMap`: the collision flags of one region, built from its tile origin and compressed bytes. */
  datatype FlagMap = FlagMap(minX: int, minY: int, data: seq<bv8>)

  /**
   * What `FlagMap` computes from its bytes, which is not part of this model: the number of planes
   * it holds, and `FlagMap.get(x, y, z, flag)`.
   */
  datatype FlagDecoder = FlagDecoder(planeCount: FlagMap -> int, get: (FlagMap, int, int, int, int) -> bool)

  /** All keys of the region table are ints. */
  predicate IntKeys(compressedRegions: map<int, seq<bv8>>) {
    forall k | k in compressedRegions :: IsInt32(k)
  }

  /** The flag map the constructor builds for the region packed in `key`. */
  function RegionMap(key: int, data: seq<bv8>): FlagMap
    requires IsInt32(key)
  {
    FlagMap(UnpackX(key) * REGION_SIZE, UnpackY(key) * REGION_SIZE, data)
  }

  /** The array slot of the region packed in `key`. */
  function KeySlot(e: RegionExtent, key: int): int
    requires IsInt32(key)
  {
    e.Index(UnpackX(key), UnpackY(key))
  }

  /** The slots the keys of a region table occupy. */
  function Slots(e: RegionExtent, keys: set<int>): set<int>
    requires forall k | k in keys :: IsInt32(k)
  {
    set k | k in keys :: KeySlot(e, k)
  }

  /**
   * What the constructor needs of its input to run without an exception and without two regions
   * fighting over one slot: the array length is not negative, every key's slot is inside the
   * array, and distinct keys have distinct slots.
   */
  predicate Placeable(e: RegionExtent, compressedRegions: map<int, seq<bv8>>) {
    && IntKeys(compressedRegions)
    && e.SlotCount() >= 0
    && (forall k | k in compressedRegions :: 0 <= KeySlot(e, k) < e.SlotCount())
    && (forall k1, k2 | k1 in compressedRegions && k2 in compressedRegions && k1 != k2 ::
          KeySlot(e, k1) != KeySlot(e, k2))
  }

  class SplitFlagMap {
    /** The static `regionExtents` as it stood when this map was built. */
    const extent: RegionExtent
    const decoder: FlagDecoder
    const widthInclusive: int
    const regionMaps: array<Option<FlagMap>>
    const regionMapPlaneCounts: array<int>

    /**
     * The region array holds the flag map of every region of `compressedRegions` at that region's
     * slot, with its plane count at the same slot, and nothing anywhere else.
     */
    ghost predicate Stores(compressedRegions: map<int, seq<bv8>>)
      requires IntKeys(compressedRegions)
      reads regionMaps, regionMapPlaneCounts
    {
      && widthInclusive == extent.WidthInclusive()
      && regionMaps.Length == extent.SlotCount()
      && regionMapPlaneCounts.Length == regionMaps.Length
      && (forall k | k in compressedRegions ::
            var i := KeySlot(extent, k);
            && 0 <= i < regionMaps.Length
            && regionMaps[i] == Some(RegionMap(k, compressedRegions[k]))
            && regionMapPlaneCounts[i] == decoder.planeCount(RegionMap(k, compressedRegions[k])))
      && (forall i | 0 <= i < regionMaps.Length && i !in Slots(extent, compressedRegions.Keys) ::
            regionMaps[i] == None && regionMapPlaneCounts[i] == 0)
    }

    /**
     * `SplitFlagMap(compressedRegions)`: sizes the array from the extent and stores a flag map
     * for each region at its slot.
     */
    constructor (e: RegionExtent, decoder: FlagDecoder, compressedRegions: map<int, seq<bv8>>)
      requires Placeable(e, compressedRegions)
      ensures extent == e && this.decoder == decoder
      ensures Stores(compressedRegions)
      ensures fresh(regionMaps) && fresh(regionMapPlaneCounts)
    {
      var n := e.SlotCount();
      var maps := new Option<FlagMap>[n](_ => None);
      var counts := new int[n](_ => 0);
      var rest := compressedRegions.Keys;
      ghost var done: set<int> := {};
      while rest != {}
        invariant rest + done == compressedRegions.Keys && rest !! done
        invariant forall k | k in done ::
          && maps[KeySlot(e, k)] == Some(RegionMap(k, compressedRegions[k]))
          && counts[KeySlot(e, k)] == decoder.planeCount(RegionMap(k, compressedRegions[k]))
        invariant forall i | 0 <= i < n && i !in Slots(e, done) :: maps[i] == None && counts[i] == 0
        decreases rest
      {
        ghost var some := TransportRules.Pick(rest);
        var key :| key in rest;
        var x := UnpackX(key);
        var y := UnpackY(key);
        var index := e.Index(x, y);
        var flagMap := FlagMap(x * REGION_SIZE, y * REGION_SIZE, compressedRegions[key]);
        maps[index] := Some(flagMap);
        counts[index] := decoder.planeCount(flagMap);
        rest := rest - {key};
        done := done + {key};
      }
      extent := e;
      this.decoder := decoder;
      widthInclusive := e.WidthInclusive();
      regionMaps := maps;
      regionMapPlaneCounts := counts;
    }

    /** The slot `get` reads for tile `(x, y)`: the index of the region the tile lies in. */
    function TileSlot(x: int, y: int): int {
      Wrap32(Wrap32(JavaDiv(x, REGION_SIZE) - extent.minX)
        + Wrap32(Wrap32(JavaDiv(y, REGION_SIZE) - extent.minY) * widthInclusive))
    }

    /**
     * `get(x, y, z, flag)`: false when the tile's slot is outside the array or holds no region,
     * otherwise what the region's flag map says.
     */
    function Get(x: int, y: int, z: int, flag: int): (r: bool)
      reads regionMaps
      ensures r ==> 0 <= TileSlot(x, y) < regionMaps.Length && regionMaps[TileSlot(x, y)].Some?
    {
      var index := TileSlot(x, y);
      if index < 0 || index >= regionMaps.Length || regionMaps[index].None? then false
      else decoder.get(regionMaps[index].value, x, y, z, flag)
    }

    /** A tile of a stored region is looked up in that region's flag map. */
    lemma GetStoredRegion(compressedRegions: map<int, seq<bv8>>, key: int, x: int, y: int, z: int, flag: int)
      requires IntKeys(compressedRegions) && Stores(compressedRegions) && key in compressedRegions
      requires JavaDiv(x, REGION_SIZE) == UnpackX(key) && JavaDiv(y, REGION_SIZE) == UnpackY(key)
      ensures Get(x, y, z, flag) == decoder.get(RegionMap(key, compressedRegions[key]), x, y, z, flag)
    {
    }

    /** A tile whose slot holds no stored region is never flagged. */
    lemma GetUnstored(compressedRegions: map<int, seq<bv8>>, x: int, y: int, z: int, flag: int)
      requires IntKeys(compressedRegions) && Stores(compressedRegions)
      requires TileSlot(x, y) !in Slots(extent, compressedRegions.Keys)
      ensures !Get(x, y, z, flag)
    {
    }
  }

  /** A region file: the coordinates its name gives, and its compressed bytes. */
  datatype RegionFile = RegionFile(x: int, y: int, data: seq<bv8>)

  /** The region table `fromResources` collects: a later file with the same position replaces an earlier one. */
  function Collected(files: seq<RegionFile>): (r: map<int, seq<bv8>>)
    requires forall i | 0 <= i < |files| :: IsInt32(files[i].x) && IsInt32(files[i].y)
    ensures IntKeys(r)
  {
    if files == [] then map[]
    else
      var f := files[|files| - 1];
      Collected(files[..|files| - 1])[PackPosition(f.x, f.y) := f.data]
  }

  /** `files[i]` is a file whose position packs to `k`. */
  predicate PackedAt(files: seq<RegionFile>, k: int, i: int)
    requires forall i | 0 <= i < |files| :: IsInt32(files[i].x) && IsInt32(files[i].y)
  {
    0 <= i < |files| && PackPosition(files[i].x, files[i].y) == k
  }

  /** `files[i]` is the last file whose position packs to `k`. */
  predicate LastAt(files: seq<RegionFile>, k: int, i: int)
    requires forall i | 0 <= i < |files| :: IsInt32(files[i].x) && IsInt32(files[i].y)
  {
    PackedAt(files, k, i) && forall j :: i < j < |files| ==> !PackedAt(files, k, j)
  }

  /** The table has a key for each file's packed position and no other. */
  lemma {:induction false} CollectedKeys(files: seq<RegionFile>)
    requires forall i | 0 <= i < |files| :: IsInt32(files[i].x) && IsInt32(files[i].y)
    ensures forall k :: k in Collected(files) <==> exists i :: PackedAt(files, k, i)
  {
    if files != [] {
      var init := files[..|files| - 1];
      var f := files[|files| - 1];
      CollectedKeys(init);
      forall k
        ensures k in Collected(files) <==> exists i :: PackedAt(files, k, i)
      {
        if k == PackPosition(f.x, f.y) {
          assert PackedAt(files, k, |files| - 1);
        }
        if k in Collected(init) {
          var i :| PackedAt(init, k, i);
          assert files[i] == init[i] && PackedAt(files, k, i);
        }
        if exists i :: PackedAt(files, k, i) {
          var i :| PackedAt(files, k, i);
          if i < |init| {
            assert files[i] == init[i] && PackedAt(init, k, i);
          }
        }
      }
    }
  }

  /** Under each key the table holds the bytes of the last file with that position. */
  lemma {:induction false} CollectedValues(files: seq<RegionFile>)
    requires forall i | 0 <= i < |files| :: IsInt32(files[i].x) && IsInt32(files[i].y)
    ensures forall k | k in Collected(files) :: exists i :: LastAt(files, k, i) && Collected(files)[k] == files[i].data
  {
    if files != [] {
      var init := files[..|files| - 1];
      var f := files[|files| - 1];
      CollectedValues(init);
      forall k | k in Collected(files)
        ensures exists i :: LastAt(files, k, i) && Collected(files)[k] == files[i].data
      {
        if k == PackPosition(f.x, f.y) {
          assert LastAt(files, k, |files| - 1) && Collected(files)[k] == files[|files| - 1].data;
        } else {
          var i :| LastAt(init, k, i) && Collected(init)[k] == init[i].data;
          assert files[i] == init[i];
          forall j | i < j < |files|
            ensures !PackedAt(files, k, j)
          {
            if j < |init| {
              assert files[j] == init[j] && !PackedAt(init, k, j);
            }
          }
          assert LastAt(files, k, i);
        }
      }
    }
  }

  /** Every coordinate a region file's name gives is a 16-bit region coordinate. */
  predicate RegionCoordinates(files: seq<RegionFile>) {
    forall i | 0 <= i < |files| :: 0 <= files[i].x <= 0xFFFF && 0 <= files[i].y <= 0xFFFF
  }

  /** The rectangle spanned by any two files fits its region count in an int. */
  predicate SpanFits(files: seq<RegionFile>) {
    forall i, j, k, l | 0 <= i < |files| && 0 <= j < |files| && 0 <= k < |files| && 0 <= l < |files| ::
      Area(Columns(files, i, j), Rows(files, k, l)) <= INT_MAX
  }

  /** The number of region columns from file `j`'s to file `i`'s. */
  function Columns(files: seq<RegionFile>, i: int, j: int): int
    requires 0 <= i < |files| && 0 <= j < |files|
  {
    files[i].x - files[j].x + 1
  }

  /** The number of region rows from file `j`'s to file `i`'s. */
  function Rows(files: seq<RegionFile>, i: int, j: int): int
    requires 0 <= i < |files| && 0 <= j < |files|
  {
    files[i].y - files[j].y + 1
  }

  /** `e` holds the lowest and highest coordinates of the files. */
  predicate Tight(files: seq<RegionFile>, e: RegionExtent) {
    && (forall i | 0 <= i < |files| :: e.Contains(files[i].x, files[i].y))
    && (exists i :: 0 <= i < |files| && files[i].x == e.minX)
    && (exists i :: 0 <= i < |files| && files[i].y == e.minY)
    && (exists i :: 0 <= i < |files| && files[i].x == e.maxX)
    && (exists i :: 0 <= i < |files| && files[i].y == e.maxY)
  }

  /** The tight extent of files whose spans fit is an extent that fits. */
  lemma TightFits(files: seq<RegionFile>, e: RegionExtent)
    requires files != [] && SpanFits(files) && Tight(files, e)
    ensures e.Fits()
  {
    var i1 :| 0 <= i1 < |files| && files[i1].x == e.minX;
    var i2 :| 0 <= i2 < |files| && files[i2].y == e.minY;
    var i3 :| 0 <= i3 < |files| && files[i3].x == e.maxX;
    var i4 :| 0 <= i4 < |files| && files[i4].y == e.maxY;
    assert Area(Columns(files, i3, i1), Rows(files, i4, i2)) <= INT_MAX;
  }

  /** Every key collected from the files unpacks to the coordinates of a file. */
  lemma CollectedInside(files: seq<RegionFile>, e: RegionExtent, k: int)
    requires RegionCoordinates(files) && k in Collected(files)
    requires forall i | 0 <= i < |files| :: e.Contains(files[i].x, files[i].y)
    ensures e.Contains(UnpackX(k), UnpackY(k))
  {
    CollectedKeys(files);
    var i :| PackedAt(files, k, i);
    PackRoundTrip(files[i].x, files[i].y);
  }

  /** A collected key's slot lies inside the array of an extent that fits around all files. */
  lemma CollectedSlotInside(files: seq<RegionFile>, e: RegionExtent, k: int)
    requires RegionCoordinates(files) && k in Collected(files) && e.Fits()
    requires forall i | 0 <= i < |files| :: e.Contains(files[i].x, files[i].y)
    ensures 0 <= KeySlot(e, k) < e.SlotCount()
  {
    CollectedInside(files, e, k);
    IndexInside(e, UnpackX(k), UnpackY(k));
  }

  /** Distinct collected keys have distinct slots in an extent that fits around all files. */
  lemma CollectedSlotsDistinct(files: seq<RegionFile>, e: RegionExtent, k1: int, k2: int)
    requires RegionCoordinates(files) && k1 in Collected(files) && k2 in Collected(files) && k1 != k2
    requires e.Fits() && forall i | 0 <= i < |files| :: e.Contains(files[i].x, files[i].y)
    ensures KeySlot(e, k1) != KeySlot(e, k2)
  {
    CollectedInside(files, e, k1);
    CollectedInside(files, e, k2);
    if KeySlot(e, k1) == KeySlot(e, k2) {
      IndexInjective(e, UnpackX(k1), UnpackY(k1), UnpackX(k2), UnpackY(k2));
      PackUnpacked(k1);
      PackUnpacked(k2);
    }
  }

  /** The extent of the files and the table collected from them satisfy what the constructor needs. */
  lemma CollectedPlaceable(files: seq<RegionFile>, e: RegionExtent)
    requires RegionCoordinates(files) && SpanFits(files)
    requires if files == [] then e == NO_EXTENT else Tight(files, e)
    ensures Placeable(e, Collected(files))
  {
    var c := Collected(files);
    if files == [] {
      NoExtentSlots();
    } else {
      TightFits(files, e);
      IndexInside(e, e.minX, e.minY);
      forall k | k in c
        ensures 0 <= KeySlot(e, k) < e.SlotCount()
      {
        CollectedSlotInside(files, e, k);
      }
      forall k1, k2 | k1 in c && k2 in c && k1 != k2
        ensures KeySlot(e, k1) != KeySlot(e, k2)
      {
        CollectedSlotsDistinct(files, e, k1, k2);
      }
    }
  }

  /**
   * `fromResources`: reads the region files in order, keeping the lowest and highest region
   * coordinates seen and collecting each file's bytes under its packed position, then builds the
   * map over that extent. The files' names and contents are given as values here.
   */
  method FromResources(files: seq<RegionFile>, decoder: FlagDecoder) returns (extent: RegionExtent, m: SplitFlagMap)
    requires RegionCoordinates(files) && SpanFits(files)
    ensures files == [] ==> extent == NO_EXTENT && m.regionMaps.Length == 4
    ensures files != [] ==> Tight(files, extent)
    ensures m.extent == extent && m.Stores(Collected(files))
    ensures fresh(m)
  {
    var compressedRegions: map<int, seq<bv8>> := map[];
    var minX, minY, maxX, maxY := INT_MAX, INT_MAX, INT_MIN, INT_MIN;
    for i := 0 to |files|
      invariant compressedRegions == Collected(files[..i])
      invariant i == 0 ==> RegionExtent(minX, minY, maxX, maxY) == NO_EXTENT
      invariant i > 0 ==> Tight(files[..i], RegionExtent(minX, minY, maxX, maxY))
    {
      var f := files[i];
      ExtendTight(files, i, RegionExtent(minX, minY, maxX, maxY));
      minX := if f.x < minX then f.x else minX;
      minY := if f.y < minY then f.y else minY;
      maxX := if f.x > maxX then f.x else maxX;
      maxY := if f.y > maxY then f.y else maxY;
      assert files[..i + 1][..i] == files[..i];
      compressedRegions := compressedRegions[PackPosition(f.x, f.y) := f.data];
    }
    assert files[..|files|] == files;
    extent := RegionExtent(minX, minY, maxX, maxY);
    CollectedPlaceable(files, extent);
    m := new SplitFlagMap(extent, decoder, compressedRegions);
    NoExtentSlots();
  }

  /** Taking one more file into the running minima and maxima keeps them tight. */
  lemma ExtendTight(files: seq<RegionFile>, i: int, e: RegionExtent)
    requires 0 <= i < |files|
    requires i == 0 ==> e == NO_EXTENT
    requires i > 0 ==> Tight(files[..i], e)
    requires RegionCoordinates(files)
    ensures var f := files[i];
      Tight(files[..i + 1], RegionExtent(
        if f.x < e.minX then f.x else e.minX, if f.y < e.minY then f.y else e.minY,
        if f.x > e.maxX then f.x else e.maxX, if f.y > e.maxY then f.y else e.maxY))
  {
    var f := files[i];
    var e' := RegionExtent(
        if f.x < e.minX then f.x else e.minX, if f.y < e.minY then f.y else e.minY,
        if f.x > e.maxX then f.x else e.maxX, if f.y > e.maxY then f.y else e.maxY);
    var s := files[..i + 1];
    assert s[i] == f;
    if i > 0 {
      var i1 :| 0 <= i1 < i && files[..i][i1].x == e.minX;
      var i2 :| 0 <= i2 < i && files[..i][i2].y == e.minY;
      var i3 :| 0 <= i3 < i && files[..i][i3].x == e.maxX;
      var i4 :| 0 <= i4 < i && files[..i][i4].y == e.maxY;
      assert s[i1] == files[..i][i1] && s[i2] == files[..i][i2] && s[i3] == files[..i][i3] && s[i4] == files[..i][i4];
      forall j | 0 <= j < i + 1
        ensures e'.Contains(s[j].x, s[j].y)
      {
        if j < i {
          assert s[j] == files[..i][j];
        }
      }
    }
  }
}
