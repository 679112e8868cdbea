/**
 * `TransportLoader`: the rows of one transport table become transports under their origin keys.
 * Rows with both ends are inserted as they are; a row with only an origin and a row with only a
 * destination are never inserted themselves, but every such pair far enough apart becomes one
 * merged transport (a fairy ring's departure combined with each other ring's arrival).
 * The caller's map is the value passed in and the value returned.
 */
module TransportLoading {
  import opened Wrappers
  import opened Worlds
  import opened TransportTypes
  import opened TransportRecords
  import TsvParsing
  import opened Transports
  import R = TransportRules

  /** A row with both ends undefined, or both left open, contributes nothing. */
  predicate Skipped(w: World, origin: int, destination: int) {
    || (origin == w.undefined && destination == w.undefined)
    || (origin == LocationPermutation(w) && destination == LocationPermutation(w))
  }

  /** A row with a real origin and an open destination: the departure half of a permutation. */
  predicate OriginOnly(w: World, origin: int, destination: int) {
    && !Skipped(w, origin, destination)
    && origin != LocationPermutation(w) && origin != w.undefined
    && destination == LocationPermutation(w)
  }

  /** A row with an open origin and a real destination: the arrival half of a permutation. */
  predicate DestinationOnly(w: World, origin: int, destination: int) {
    && !Skipped(w, origin, destination)
    && origin == LocationPermutation(w)
    && destination != LocationPermutation(w) && destination != w.undefined
  }

  /** A row inserted under its own origin: a real destination, and an undefined origin (a teleport) or one that differs from it. */
  predicate Inserted(w: World, origin: int, destination: int) {
    && !Skipped(w, origin, destination)
    && origin != LocationPermutation(w)
    && destination != w.undefined && destination != LocationPermutation(w)
    && (origin == w.undefined || origin != destination)
  }

  /**
   * The row kinds exclude each other: a permutation half is never inserted as it is, a skipped
   * row is nothing, and a teleport row (undefined origin, real destination) is always inserted.
   */
  lemma RowKinds(w: World, origin: int, destination: int)
    requires w.undefined != LocationPermutation(w)
    ensures OriginOnly(w, origin, destination) ==> !Inserted(w, origin, destination) && !DestinationOnly(w, origin, destination)
    ensures DestinationOnly(w, origin, destination) ==> !Inserted(w, origin, destination)
    ensures Skipped(w, origin, destination) ==>
      !Inserted(w, origin, destination) && !OriginOnly(w, origin, destination) && !DestinationOnly(w, origin, destination)
    ensures origin == w.undefined && destination != w.undefined && destination != LocationPermutation(w) ==>
      Inserted(w, origin, destination)
    ensures origin == destination && origin != w.undefined ==> !Inserted(w, origin, destination)
  {
  }

  /** The rows inserted under their own origin. */
  function InsertedRows(w: World, rows: set<Transport>): set<Transport> {
    set t | t in rows && Inserted(w, t.origin, t.destination)
  }

  /** The departure halves: `transportOrigins`. */
  function OriginRows(w: World, rows: set<Transport>): set<Transport> {
    set t | t in rows && OriginOnly(w, t.origin, t.destination)
  }

  /** The arrival halves: `transportDestinations`. */
  function DestinationRows(w: World, rows: set<Transport>): set<Transport> {
    set t | t in rows && DestinationOnly(w, t.origin, t.destination)
  }

  /** Classifying one more row adds it to the one class it belongs to. */
  lemma RowsStep(w: World, done: set<Transport>, t: Transport)
    ensures InsertedRows(w, done + {t}) ==
      InsertedRows(w, done) + (if Inserted(w, t.origin, t.destination) then {t} else {})
    ensures OriginRows(w, done + {t}) ==
      OriginRows(w, done) + (if OriginOnly(w, t.origin, t.destination) then {t} else {})
    ensures DestinationRows(w, done + {t}) ==
      DestinationRows(w, done) + (if DestinationOnly(w, t.origin, t.destination) then {t} else {})
  {
  }

  /** `distanceBetween2D(origin.getOrigin(), destination.getDestination()) > radiusThreshold`. */
  predicate Far(w: World, origin: Transport, destination: Transport, radiusThreshold: int) {
    w.distance2D(origin.origin, destination.destination) > radiusThreshold
  }

  /** The origin-only and destination-only pairs whose ends are farther apart than the threshold. */
  function Pairs(w: World, origins: set<Transport>, destinations: set<Transport>, radiusThreshold: int)
    : set<(Transport, Transport)>
  {
    set o, d | o in origins && d in destinations && Far(w, o, d, radiusThreshold) :: (o, d)
  }

  /** The pairs of `origin` with the destination-only rows of `seen` far enough from it. */
  function PairsOf(w: World, origin: Transport, seen: set<Transport>, radiusThreshold: int)
    : set<(Transport, Transport)>
  {
    set d | d in seen && Far(w, origin, d, radiusThreshold) :: (origin, d)
  }

  lemma PairsStep(w: World, done: set<Transport>, o: Transport, destinations: set<Transport>, radiusThreshold: int)
    ensures Pairs(w, done + {o}, destinations, radiusThreshold) ==
      Pairs(w, done, destinations, radiusThreshold) + PairsOf(w, o, destinations, radiusThreshold)
  {
  }

  lemma PairsOfStep(w: World, o: Transport, done: set<Transport>, d: Transport, radiusThreshold: int)
    ensures PairsOf(w, o, done + {d}, radiusThreshold) ==
      PairsOf(w, o, done, radiusThreshold) + (if Far(w, o, d, radiusThreshold) then {(o, d)} else {})
  {
  }

  function Origins(s: set<Transport>): set<int> {
    set t | t in s :: t.origin
  }

  function AtOrigin(s: set<Transport>, k: int): set<Transport> {
    set t | t in s && t.origin == k
  }

  /** `transports.computeIfAbsent(t.origin, k -> new HashSet<>()).add(t)` for every `t` of `s`. */
  function Placed(m: map<int, set<Transport>>, s: set<Transport>): map<int, set<Transport>> {
    map k | k in m.Keys + Origins(s) :: R.SetAt(m, k) + AtOrigin(s, k)
  }

  lemma PlacedNothing(m: map<int, set<Transport>>)
    ensures Placed(m, {}) == m
  {
    var a := Placed(m, {});
    assert Origins({}) == {};
    assert a.Keys == m.Keys;
    forall k | k in m
      ensures a[k] == m[k]
    {
      assert AtOrigin({}, k) == {};
    }
  }

  /** No transport of `s` has an origin outside `Origins(s)`. */
  lemma AtOtherOrigin(s: set<Transport>, k: int)
    requires k !in Origins(s)
    ensures AtOrigin(s, k) == {}
  {
    forall t | t in s
      ensures t.origin != k
    {
      assert t.origin in Origins(s);
    }
  }

  /** Placing one more transport is one `computeIfAbsent(...).add(...)`. */
  lemma PlacedStep(m: map<int, set<Transport>>, s: set<Transport>, t: Transport)
    ensures Placed(m, s + {t}) == R.AddAt(Placed(m, s), t.origin, {t})
  {
    PlacedStepKeys(m, s, t);
    forall k | k in Placed(m, s + {t})
      ensures Placed(m, s + {t})[k] == R.AddAt(Placed(m, s), t.origin, {t})[k]
    {
      PlacedStepAt(m, s, t, k);
    }
  }

  lemma PlacedStepKeys(m: map<int, set<Transport>>, s: set<Transport>, t: Transport)
    ensures Placed(m, s + {t}).Keys == Placed(m, s).Keys + {t.origin}
  {
    assert Origins(s + {t}) == Origins(s) + {t.origin};
  }

  lemma PlacedStepAt(m: map<int, set<Transport>>, s: set<Transport>, t: Transport, k: int)
    requires k in Placed(m, s + {t})
    ensures Placed(m, s + {t})[k] == R.SetAt(Placed(m, s), k) + (if t.origin == k then {t} else {})
  {
    assert AtOrigin(s + {t}, k) == AtOrigin(s, k) + (if t.origin == k then {t} else {});
    if k !in Placed(m, s) {
      AtOtherOrigin(s, k);
    }
  }

  /**
   * After placing, every key and transport of `m` is still there, every transport of `s` sits
   * under its origin, and nothing else was added.
   */
  lemma PlacedMeans(m: map<int, set<Transport>>, s: set<Transport>)
    ensures forall k :: k in m ==> k in Placed(m, s) && m[k] <= Placed(m, s)[k]
    ensures forall t :: t in s ==> t.origin in Placed(m, s) && t in Placed(m, s)[t.origin]
    ensures forall k, t :: k in Placed(m, s) && t in Placed(m, s)[k] ==>
      (k in m && t in m[k]) || (t in s && t.origin == k)
    ensures forall k :: k in Placed(m, s) ==> Placed(m, s)[k] != {} || (k in m && m[k] == {})
  {
    forall t | t in s
      ensures t.origin in Placed(m, s) && t in Placed(m, s)[t.origin]
    {
      assert t.origin in Origins(s);
    }
    forall k | k in Placed(m, s) && k !in m
      ensures Placed(m, s)[k] != {}
    {
      var t :| t in s && t.origin == k;
      assert t in AtOrigin(s, k);
    }
  }

  /** The map after one table: rows inserted under their origins, then the merged pairs under theirs. */
  function Loaded(m: map<int, set<Transport>>, inserted: set<Transport>, merged: set<Transport>)
    : map<int, set<Transport>>
  {
    Placed(Placed(m, inserted), merged)
  }

  /**
   * Loading a table only adds: every key and every transport already there stays; every
   * inserted row and every merged pair lies under its origin afterwards; and a transport that was
   * not there before is one of those, under its own origin.
   */
  lemma LoadedMeans(m: map<int, set<Transport>>, inserted: set<Transport>, merged: set<Transport>)
    ensures forall k :: k in m ==> k in Loaded(m, inserted, merged) && m[k] <= Loaded(m, inserted, merged)[k]
    ensures forall t :: t in inserted + merged ==>
      t.origin in Loaded(m, inserted, merged) && t in Loaded(m, inserted, merged)[t.origin]
    ensures forall k, t :: k in Loaded(m, inserted, merged) && t in Loaded(m, inserted, merged)[k] ==>
      (k in m && t in m[k]) || (t in inserted + merged && t.origin == k)
    ensures (forall k :: k in m ==> m[k] != {}) ==> forall k :: k in Loaded(m, inserted, merged) ==> Loaded(m, inserted, merged)[k] != {}
  {
    PlacedMeans(m, inserted);
    PlacedMeans(Placed(m, inserted), merged);
  }

  /** The transports of the rows, built one per record in order; the first unparsable row is the error. */
  method BuildRows(c: Catalog, records: seq<TransportRecord>, transportType: TransportType)
    returns (result: Result<seq<Transport>>)
    ensures result.Err? <==> exists i :: 0 <= i < |records| && FromRecordSpec(c, records[i], transportType).Err?
    ensures result.Ok? ==> |result.value| == |records|
    ensures result.Ok? ==> forall i :: 0 <= i < |records| ==>
      fresh(result.value[i]) && result.value[i].Fields() == FromRecordSpec(c, records[i], transportType).value
    ensures result.Ok? ==> forall i, j :: 0 <= i < j < |records| ==> result.value[i] != result.value[j]
  {
    var rows: seq<Transport> := [];
    for i := 0 to |records|
      invariant |rows| == i
      invariant forall j :: 0 <= j < i ==> FromRecordSpec(c, records[j], transportType) == Ok(rows[j].Fields())
      invariant forall j :: 0 <= j < i ==> fresh(rows[j])
      invariant forall j, k :: 0 <= j < k < i ==> rows[j] != rows[k]
    {
      var built := FromRecord(c, records[i], transportType);
      if built.Err? {
        return Err(built.error);
      }
      rows := rows + [built.value];
    }
    return Ok(rows);
  }

  /** The elements of a sequence of transports. */
  function Elements(rows: seq<Transport>): set<Transport> {
    set t | t in rows
  }

  /**
   * The classification loop: inserts every row of the inserted kind under its origin and collects
   * the two permutation halves.
   */
  method ClassifyRows(w: World, transports: map<int, set<Transport>>, rows: set<Transport>)
    returns (m: map<int, set<Transport>>, origins: set<Transport>, destinations: set<Transport>)
    ensures m == Placed(transports, InsertedRows(w, rows))
    ensures origins == OriginRows(w, rows) && destinations == DestinationRows(w, rows)
  {
    m := transports;
    origins := {};
    destinations := {};
    var pending := rows;
    ghost var done: set<Transport> := {};
    PlacedNothing(transports);
    assert InsertedRows(w, {}) == {};
    while pending != {}
      invariant pending <= rows && done == rows - pending
      invariant m == Placed(transports, InsertedRows(w, done))
      invariant origins == OriginRows(w, done) && destinations == DestinationRows(w, done)
      decreases pending
    {
      ghost var someRow := R.Pick(pending);
      var transport :| transport in pending;
      RowsStep(w, done, transport);
      var origin := transport.origin;
      var destination := transport.destination;
      if !Skipped(w, origin, destination) {
        if OriginOnly(w, origin, destination) {
          origins := origins + {transport};
        } else if DestinationOnly(w, origin, destination) {
          destinations := destinations + {transport};
        }
        if Inserted(w, origin, destination) {
          PlacedStep(transports, InsertedRows(w, done), transport);
          m := R.AddAt(m, origin, {transport});
          assert m == Placed(transports, InsertedRows(w, done + {transport}));
        } else {
          assert InsertedRows(w, done + {transport}) == InsertedRows(w, done);
        }
      } else {
        assert InsertedRows(w, done + {transport}) == InsertedRows(w, done);
      }
      R.TakeOne(rows, pending, transport);
      pending := pending - {transport};
      done := done + {transport};
    }
    assert done == rows;
  }

  /** `t` is the merge constructor's transport for the pair `p` of well-formed rows. */
  predicate IsMerge(c: Catalog, p: (Transport, Transport), t: Transport) {
    && WellFormed(c, p.0.Fields()) && WellFormed(c, p.1.Fields())
    && t.Fields() == MergeSpec(c, p.0.Fields(), p.1.Fields())
  }

  /**
   * One `transports.computeIfAbsent(origin.getOrigin(), ...).add(new Transport(origin, destination))`,
   * recorded in `mine` under its pair.
   */
  method MergePair(c: Catalog, m0: map<int, set<Transport>>, origin: Transport, destination: Transport,
                   radiusThreshold: int, ghost base: map<int, set<Transport>>, ghost before: set<Transport>,
                   ghost mine0: map<(Transport, Transport), Transport>, ghost done: set<Transport>)
    returns (m: map<int, set<Transport>>, merged: Transport, ghost mine: map<(Transport, Transport), Transport>)
    requires WellFormed(c, origin.Fields()) && WellFormed(c, destination.Fields())
    requires Far(c.world, origin, destination, radiusThreshold)
    requires mine0.Keys == PairsOf(c.world, origin, done, radiusThreshold) && destination !in done
    requires m0 == Placed(base, before + mine0.Values)
    ensures fresh(merged) && IsMerge(c, (origin, destination), merged)
    requires Injective(mine0)
    ensures mine == mine0[(origin, destination) := merged]
    ensures Injective(mine)
    ensures mine.Keys == PairsOf(c.world, origin, done + {destination}, radiusThreshold)
    ensures m == Placed(base, before + mine.Values)
  {
    merged := Merge(c, origin, destination);
    MergeTakesEachSide(c, origin.Fields(), destination.Fields());
    PlacedStep(base, before + mine0.Values, merged);
    assert merged !in mine0.Values;
    MineStep(c.world, mine0, origin, done, destination, radiusThreshold, merged, before);
    InjectiveStep(mine0, (origin, destination), merged);
    m := R.AddAt(m0, origin.origin, {merged});
    mine := mine0[(origin, destination) := merged];
  }

  /**
   * The inner loop of the permutation step: merges `origin` with every destination-only row far
   * enough away, each merge a new transport put under `origin`'s origin. `mine` records which
   * pair produced which transport; no two pairs share one.
   */
  method MergeOrigin(c: Catalog, m0: map<int, set<Transport>>, origin: Transport, destinations: set<Transport>,
                     radiusThreshold: int, ghost base: map<int, set<Transport>>, ghost before: set<Transport>)
    returns (m: map<int, set<Transport>>, ghost mine: map<(Transport, Transport), Transport>)
    requires WellFormed(c, origin.Fields())
    requires forall d :: d in destinations ==> WellFormed(c, d.Fields())
    requires m0 == Placed(base, before)
    ensures mine.Keys == PairsOf(c.world, origin, destinations, radiusThreshold)
    ensures forall p :: p in mine ==> fresh(mine[p]) && IsMerge(c, p, mine[p])
    ensures Injective(mine)
    ensures m == Placed(base, before + mine.Values)
  {
    m := m0;
    mine := map[];
    assert before + mine.Values == before;
    var pending := destinations;
    ghost var done: set<Transport> := {};
    assert PairsOf(c.world, origin, {}, radiusThreshold) == {};
    while pending != {}
      invariant pending <= destinations && done == destinations - pending
      invariant mine.Keys == PairsOf(c.world, origin, done, radiusThreshold)
      invariant forall p :: p in mine ==> fresh(mine[p]) && IsMerge(c, p, mine[p])
      invariant Injective(mine)
      invariant m == Placed(base, before + mine.Values)
      decreases pending
    {
      ghost var someRow := R.Pick(pending);
      var destination :| destination in pending;
      if Far(c.world, origin, destination, radiusThreshold) {
        var merged;
        m, merged, mine := MergePair(c, m, origin, destination, radiusThreshold, base, before, mine, done);
      } else {
        PairsOfStep(c.world, origin, done, destination, radiusThreshold);
      }
      R.TakeOne(destinations, pending, destination);
      pending := pending - {destination};
      done := done + {destination};
    }
    assert done == destinations;
  }

  /** Recording one more merged pair keeps the record one transport per pair. */
  lemma MineStep(w: World, mine: map<(Transport, Transport), Transport>, origin: Transport, done: set<Transport>,
                 destination: Transport, radiusThreshold: int, merged: Transport, before: set<Transport>)
    requires mine.Keys == PairsOf(w, origin, done, radiusThreshold) && destination !in done
    requires Far(w, origin, destination, radiusThreshold)
    ensures (origin, destination) !in mine
    ensures mine[(origin, destination) := merged].Keys == PairsOf(w, origin, done + {destination}, radiusThreshold)
    ensures before + mine.Values + {merged} == before + mine[(origin, destination) := merged].Values
  {
    PairsOfStep(w, origin, done, destination, radiusThreshold);
    assert (origin, destination) !in mine;
    ValuesStep(mine, (origin, destination), merged);
  }

  /** No two pairs share a merged transport: each merge is its own `new Transport`. */
  predicate Injective(made: map<(Transport, Transport), Transport>) {
    forall p, q :: p in made && q in made && p != q ==> made[p] != made[q]
  }

  lemma InjectiveStep(made: map<(Transport, Transport), Transport>, k: (Transport, Transport), v: Transport)
    requires Injective(made) && k !in made && v !in made.Values
    ensures Injective(made[k := v])
  {
    var after := made[k := v];
    forall p, q | p in after && q in after && p != q
      ensures after[p] != after[q]
    {
      if p == k {
        assert made[q] in made.Values;
      } else if q == k {
        assert made[p] in made.Values;
      }
    }
  }

  lemma InjectiveUnion(a: map<(Transport, Transport), Transport>, b: map<(Transport, Transport), Transport>)
    requires Injective(a) && Injective(b) && a.Keys !! b.Keys && a.Values !! b.Values
    ensures Injective(a + b)
  {
    forall p, q | p in a + b && q in a + b && p != q
      ensures (a + b)[p] != (a + b)[q]
    {
      if p in b && q !in b {
        assert b[p] in b.Values && a[q] in a.Values;
      } else if q in b && p !in b {
        assert b[q] in b.Values && a[p] in a.Values;
      }
    }
  }

  lemma ValuesStep<K, V>(made: map<K, V>, k: K, v: V)
    requires k !in made
    ensures made[k := v].Values == made.Values + {v}
  {
    var after := made[k := v];
    forall x | x in after.Values
      ensures x in made.Values + {v}
    {
      var j :| j in after && after[j] == x;
      if j != k {
        assert made[j] == x;
      }
    }
    forall x | x in made.Values
      ensures x in after.Values
    {
      var j :| j in made && made[j] == x;
      assert after[j] == x;
    }
    assert after[k] == v;
  }

  lemma UnionValues<K, V>(a: map<K, V>, b: map<K, V>)
    requires a.Keys !! b.Keys
    ensures (a + b).Values == a.Values + b.Values
  {
    var u := a + b;
    forall x | x in u.Values
      ensures x in a.Values + b.Values
    {
      var j :| j in u && u[j] == x;
      if j in b {
        assert b[j] == x;
      } else {
        assert a[j] == x;
      }
    }
    forall x | x in a.Values
      ensures x in u.Values
    {
      var j :| j in a && a[j] == x;
      assert u[j] == x;
    }
    forall x | x in b.Values
      ensures x in u.Values
    {
      var j :| j in b && b[j] == x;
      assert u[j] == x;
    }
  }

  /** The pairs of one more origin-only row share no key with the pairs made so far. */
  lemma NewOriginPairs(w: World, done: set<Transport>, o: Transport, destinations: set<Transport>, radiusThreshold: int)
    requires o !in done
    ensures Pairs(w, done, destinations, radiusThreshold) !! PairsOf(w, o, destinations, radiusThreshold)
  {
  }

  /**
   * The permutation step: every origin-only row merged with every destination-only row whose
   * destination lies farther from its origin than the threshold, one new transport per pair.
   */
  method AddPermutations(c: Catalog, m0: map<int, set<Transport>>, origins: set<Transport>,
                         destinations: set<Transport>, radiusThreshold: int)
    returns (m: map<int, set<Transport>>, ghost made: map<(Transport, Transport), Transport>)
    requires forall o :: o in origins ==> WellFormed(c, o.Fields())
    requires forall d :: d in destinations ==> WellFormed(c, d.Fields())
    ensures made.Keys == Pairs(c.world, origins, destinations, radiusThreshold)
    ensures forall p :: p in made ==> fresh(made[p]) && IsMerge(c, p, made[p])
    ensures Injective(made)
    ensures m == Placed(m0, made.Values)
  {
    m := m0;
    made := map[];
    PlacedNothing(m0);
    assert made.Values == {};
    var pending := origins;
    ghost var done: set<Transport> := {};
    assert Pairs(c.world, {}, destinations, radiusThreshold) == {};
    while pending != {}
      invariant pending <= origins && done == origins - pending
      invariant made.Keys == Pairs(c.world, done, destinations, radiusThreshold)
      invariant forall p :: p in made ==> fresh(made[p]) && IsMerge(c, p, made[p])
      invariant Injective(made)
      invariant m == Placed(m0, made.Values)
      decreases pending
    {
      ghost var someRow := R.Pick(pending);
      var origin :| origin in pending;
      PairsStep(c.world, done, origin, destinations, radiusThreshold);
      NewOriginPairs(c.world, done, origin, destinations, radiusThreshold);
      ghost var mine;
      m, mine := MergeOrigin(c, m, origin, destinations, radiusThreshold, m0, made.Values);
      assert made.Values !! mine.Values;
      UnionValues(made, mine);
      InjectiveUnion(made, mine);
      assert (made + mine).Keys == made.Keys + mine.Keys;
      made := made + mine;
      R.TakeOne(origins, pending, origin);
      pending := pending - {origin};
      done := done + {origin};
    }
    assert done == origins;
  }

  /** Some row of the table cannot be turned into a transport: the record constructor throws. */
  predicate TableFails(c: Catalog, contents: string, transportType: TransportType) {
    var records := TsvParsing.ParseSpec(contents);
    exists i :: 0 <= i < |records| && FromRecordSpec(c, records[i], transportType).Err?
  }

  /** Every row is well formed once every record has been built. */
  lemma RowsWellFormed(c: Catalog, records: seq<TransportRecord>, transportType: TransportType, rows: seq<Transport>)
    requires |rows| == |records|
    requires forall i :: 0 <= i < |records| ==> FromRecordSpec(c, records[i], transportType).Ok?
    requires forall i :: 0 <= i < |records| ==> rows[i].Fields() == FromRecordSpec(c, records[i], transportType).value
    ensures forall t :: t in Elements(rows) ==> WellFormed(c, t.Fields())
  {
    forall t | t in Elements(rows)
      ensures WellFormed(c, t.Fields())
    {
      var i :| 0 <= i < |rows| && rows[i] == t;
      RecordLevels(c, records[i], transportType);
    }
  }

  /**
   * `addTransportsFromContents`: the table's rows are built in order, classified, and placed in
   * the map together with the merged permutation pairs. When a row cannot be built the exception
   * leaves the caller's map as it was, since nothing is inserted before every row is built.
   */
  method AddTransportsFromContents(c: Catalog, transports: map<int, set<Transport>>, contents: string,
                                   transportType: TransportType, radiusThreshold: int)
    returns (result: Result<map<int, set<Transport>>>, ghost rows: seq<Transport>,
             ghost made: map<(Transport, Transport), Transport>)
    ensures result.Err? <==> TableFails(c, contents, transportType)
    ensures result.Ok? ==> |rows| == |TsvParsing.ParseSpec(contents)|
    ensures result.Ok? ==> forall i :: 0 <= i < |rows| ==>
      fresh(rows[i]) && rows[i].Fields() == FromRecordSpec(c, TsvParsing.ParseSpec(contents)[i], transportType).value
    ensures result.Ok? ==> forall i, j :: 0 <= i < j < |rows| ==> rows[i] != rows[j]
    ensures result.Ok? ==> (made.Keys ==
      Pairs(c.world, OriginRows(c.world, Elements(rows)), DestinationRows(c.world, Elements(rows)), radiusThreshold))
    ensures result.Ok? ==> forall p :: p in made ==>
      fresh(made[p]) && made[p] !in Elements(rows) && IsMerge(c, p, made[p])
    ensures result.Ok? ==> Injective(made)
    ensures result.Ok? ==> result.value == Loaded(transports, InsertedRows(c.world, Elements(rows)), made.Values)
  {
    var records := TsvParsing.Parse(contents);
    var built := BuildRows(c, records, transportType);
    if built.Err? {
      return Err(built.error), [], map[];
    }
    rows := built.value;
    RowsWellFormed(c, records, transportType, rows);
    var newTransports := set t | t in built.value;
    var m;
    m, made := PlaceRows(c, transports, newTransports, radiusThreshold);
    result := Ok(m);
  }

  /** The two loops of `addTransportsFromContents` over the built rows `newTransports`. */
  method PlaceRows(c: Catalog, transports: map<int, set<Transport>>, newTransports: set<Transport>, radiusThreshold: int)
    returns (m: map<int, set<Transport>>, ghost made: map<(Transport, Transport), Transport>)
    requires forall t :: t in newTransports ==> WellFormed(c, t.Fields())
    ensures made.Keys ==
      Pairs(c.world, OriginRows(c.world, newTransports), DestinationRows(c.world, newTransports), radiusThreshold)
    ensures forall p :: p in made ==> fresh(made[p]) && IsMerge(c, p, made[p])
    ensures Injective(made)
    ensures m == Loaded(transports, InsertedRows(c.world, newTransports), made.Values)
  {
    var origins, destinations;
    m, origins, destinations := ClassifyRows(c.world, transports, newTransports);
    m, made := AddPermutations(c, m, origins, destinations, radiusThreshold);
  }

  /**
   * A built row shows up in the map exactly when it is of the inserted kind, and then only
   * under its own origin: skipped rows and both permutation halves are never inserted themselves.
   */
  lemma OnlyInsertedRowsAppear(w: World, m: map<int, set<Transport>>, rows: set<Transport>,
                               merged: set<Transport>, t: Transport)
    requires t in rows && t !in merged
    requires forall k :: k in m ==> t !in m[k]
    ensures (exists k :: k in Loaded(m, InsertedRows(w, rows), merged) && t in Loaded(m, InsertedRows(w, rows), merged)[k])
      <==> Inserted(w, t.origin, t.destination)
    ensures forall k :: k in Loaded(m, InsertedRows(w, rows), merged) && t in Loaded(m, InsertedRows(w, rows), merged)[k] ==>
      k == t.origin
  {
    LoadedMeans(m, InsertedRows(w, rows), merged);
  }

  /**
   * Each origin-only and destination-only pair is merged exactly when its ends lie farther apart
   * than the threshold, and the merged transport sits under the origin-only row's origin and
   * leads to the destination-only row's destination.
   */
  lemma PermutationsPlaced(c: Catalog, m: map<int, set<Transport>>, inserted: set<Transport>,
                           origins: set<Transport>, destinations: set<Transport>, radiusThreshold: int,
                           made: map<(Transport, Transport), Transport>, o: Transport, d: Transport)
    requires made.Keys == Pairs(c.world, origins, destinations, radiusThreshold)
    requires forall p :: p in made ==> IsMerge(c, p, made[p])
    requires o in origins && d in destinations
    ensures (o, d) in made <==> c.world.distance2D(o.origin, d.destination) > radiusThreshold
    ensures (o, d) in made ==>
      && made[(o, d)].origin == o.origin && made[(o, d)].destination == d.destination
      && o.origin in Loaded(m, inserted, made.Values) && made[(o, d)] in Loaded(m, inserted, made.Values)[o.origin]
  {
    if (o, d) in made {
      MergeTakesEachSide(c, o.Fields(), d.Fields());
      LoadedMeans(m, inserted, made.Values);
      assert made[(o, d)] in made.Values;
    }
  }

  /** The threshold a type's table is loaded with: its own, or 0. */
  function Threshold(t: TransportType): (r: int)
    ensures HasRadiusThreshold(t) ==> r == RadiusThreshold(t).value
    ensures !HasRadiusThreshold(t) ==> r == 0
  {
    if HasRadiusThreshold(t) then RadiusThreshold(t).value else 0
  }

  /** A type whose resource table cannot be built. */
  predicate TypeFails(c: Catalog, contentsOf: string -> string, t: TransportType) {
    HasResourcePath(t) && TableFails(c, contentsOf(ResourcePath(t).value), t)
  }

  /** Every transport of the map sits under its own origin, and no origin maps to an empty set. */
  predicate Keyed(m: map<int, set<Transport>>) {
    forall k :: k in m ==> m[k] != {} && forall t :: t in m[k] ==> t.origin == k
  }

  /** What one type's table put into the map: its built rows and its merged permutation pairs. */
  datatype Table = Table(rows: seq<Transport>, made: map<(Transport, Transport), Transport>)

  /** The transports a table adds: its rows of the inserted kind and its merged pairs. */
  function Contribution(w: World, table: Table): set<Transport> {
    InsertedRows(w, Elements(table.rows)) + table.made.Values
  }

  /**
   * `table` is what `t`'s resource file builds: one row per record, in order and distinct, and
   * one merge for every origin-only and destination-only pair farther apart than `t`'s threshold.
   */
  predicate IsTableOf(c: Catalog, contentsOf: string -> string, t: TransportType, table: Table)
    requires HasResourcePath(t)
  {
    var records := TsvParsing.ParseSpec(contentsOf(ResourcePath(t).value));
    && |table.rows| == |records|
    && (forall i :: 0 <= i < |records| ==>
          FromRecordSpec(c, records[i], t).Ok? && table.rows[i].Fields() == FromRecordSpec(c, records[i], t).value)
    && (forall i, j :: 0 <= i < j < |table.rows| ==> table.rows[i] != table.rows[j])
    && table.made.Keys == Pairs(c.world, OriginRows(c.world, Elements(table.rows)),
                                DestinationRows(c.world, Elements(table.rows)), Threshold(t))
    && (forall p :: p in table.made ==> IsMerge(c, p, table.made[p]))
  }

  /** The map after loading, in order, the tables of the types that have a resource file. */
  function LoadedTables(w: World, types: seq<TransportType>, tables: seq<Table>): map<int, set<Transport>>
    requires |tables| == |types|
    decreases |types|
  {
    if types == [] then map[]
    else
      var before := LoadedTables(w, types[..|types| - 1], tables[..|tables| - 1]);
      var last := tables[|tables| - 1];
      if HasResourcePath(types[|types| - 1]) then Loaded(before, InsertedRows(w, Elements(last.rows)), last.made.Values)
      else before
  }

  /**
   * The loaded map holds every transport each loaded table contributes, under its origin, and
   * nothing else.
   */
  lemma {:induction false} LoadedTablesMeans(w: World, types: seq<TransportType>, tables: seq<Table>)
    requires |tables| == |types|
    ensures forall i, t :: 0 <= i < |types| && HasResourcePath(types[i]) && t in Contribution(w, tables[i]) ==>
      t.origin in LoadedTables(w, types, tables) && t in LoadedTables(w, types, tables)[t.origin]
    ensures forall k, t :: k in LoadedTables(w, types, tables) && t in LoadedTables(w, types, tables)[k] ==>
      t.origin == k && exists i :: 0 <= i < |types| && HasResourcePath(types[i]) && t in Contribution(w, tables[i])
    ensures Keyed(LoadedTables(w, types, tables))
    decreases |types|
  {
    if types != [] {
      var n := |types| - 1;
      var prefix, prefixTables := types[..n], tables[..n];
      var before := LoadedTables(w, prefix, prefixTables);
      var last := tables[n];
      LoadedTablesMeans(w, prefix, prefixTables);
      var after := LoadedTables(w, types, tables);
      assert forall i :: 0 <= i < n ==> prefix[i] == types[i] && prefixTables[i] == tables[i];
      if HasResourcePath(types[n]) {
        LoadedMeans(before, InsertedRows(w, Elements(last.rows)), last.made.Values);
        LoadedKeeps(before, InsertedRows(w, Elements(last.rows)), last.made.Values);
        assert after == Loaded(before, InsertedRows(w, Elements(last.rows)), last.made.Values);
      } else {
        assert after == before;
      }
      forall k, t: Transport | k in after && t in after[k]
        ensures t.origin == k && exists i :: 0 <= i < |types| && HasResourcePath(types[i]) && t in Contribution(w, tables[i])
      {
        if k in before && t in before[k] {
          var i :| 0 <= i < n && HasResourcePath(prefix[i]) && t in Contribution(w, prefixTables[i]);
          assert HasResourcePath(types[i]) && t in Contribution(w, tables[i]);
        } else {
          assert HasResourcePath(types[n]) && t in Contribution(w, tables[n]);
        }
      }
    }
  }

  /** Loading the tables of one more type. */
  lemma LoadedTablesStep(w: World, types: seq<TransportType>, tables: seq<Table>, i: int, table: Table)
    requires 0 <= i < |types| && |tables| == i
    ensures LoadedTables(w, types[..i + 1], tables + [table]) ==
      if HasResourcePath(types[i]) then Loaded(LoadedTables(w, types[..i], tables), InsertedRows(w, Elements(table.rows)), table.made.Values)
      else LoadedTables(w, types[..i], tables)
  {
    assert types[..i + 1][..i] == types[..i];
    assert (tables + [table])[..i] == tables;
  }

  /**
   * `addTransports(transports, path, type, threshold)`: one table read and loaded with the type's
   * threshold. Loading keeps every transport already in the map and keeps each transport under its
   * own origin.
   */
  method LoadTable(c: Catalog, transports: map<int, set<Transport>>, contentsOf: string -> string, t: TransportType)
    returns (result: Result<map<int, set<Transport>>>, ghost table: Table)
    requires HasResourcePath(t)
    ensures result.Err? <==> TypeFails(c, contentsOf, t)
    ensures result.Ok? ==> IsTableOf(c, contentsOf, t, table)
    ensures result.Ok? ==>
      && (forall i :: 0 <= i < |table.rows| ==> fresh(table.rows[i]))
      && (forall p :: p in table.made ==> fresh(table.made[p]))
    ensures result.Ok? ==> result.value == Loaded(transports, InsertedRows(c.world, Elements(table.rows)), table.made.Values)
    ensures result.Ok? ==> forall k :: k in transports ==> k in result.value && transports[k] <= result.value[k]
    ensures result.Ok? && Keyed(transports) ==> Keyed(result.value)
  {
    ghost var rows, made;
    result, rows, made := AddTransportsFromContents(c, transports, contentsOf(ResourcePath(t).value), t, Threshold(t));
    table := Table(rows, made);
    if result.Ok? {
      LoadedKeeps(transports, InsertedRows(c.world, Elements(rows)), made.Values);
    }
  }

  /** Loading keeps what the map held, and keeps a keyed map keyed. */
  lemma LoadedKeeps(m: map<int, set<Transport>>, inserted: set<Transport>, merged: set<Transport>)
    ensures forall k :: k in m ==> k in Loaded(m, inserted, merged) && m[k] <= Loaded(m, inserted, merged)[k]
    ensures Keyed(m) ==> Keyed(Loaded(m, inserted, merged))
  {
    LoadedMeans(m, inserted, merged);
  }

  /**
   * `loadAllFromResources`: every type with a resource file, in declaration order, loaded with
   * its threshold into one new map; `contentsOf` stands for reading a resource file. A table that
   * cannot be built ends the load with the error, as the exception does. On success the map holds
   * exactly what the types' tables contribute, each transport under its own origin.
   */
  method LoadAllFromResources(c: Catalog, contentsOf: string -> string)
    returns (result: Result<map<int, set<Transport>>>, ghost tables: seq<Table>)
    ensures result.Err? <==> exists t :: t in AllTypes && TypeFails(c, contentsOf, t)
    ensures result.Ok? ==>
      && |tables| == |AllTypes|
      && forall i :: 0 <= i < |AllTypes| && HasResourcePath(AllTypes[i]) ==> IsTableOf(c, contentsOf, AllTypes[i], tables[i])
    ensures result.Ok? ==> forall i, t :: 0 <= i < |AllTypes| && HasResourcePath(AllTypes[i]) && t in Contribution(c.world, tables[i]) ==>
      t.origin in result.value && t in result.value[t.origin]
    ensures result.Ok? ==> forall k, t :: k in result.value && t in result.value[k] ==>
      t.origin == k && exists i :: 0 <= i < |AllTypes| && HasResourcePath(AllTypes[i]) && t in Contribution(c.world, tables[i])
    ensures result.Ok? ==> Keyed(result.value)
  {
    result, tables := LoadTypes(c, contentsOf, AllTypes);
    if result.Ok? {
      LoadedTablesMeans(c.world, AllTypes, tables);
      forall i | 0 <= i < |AllTypes| && HasResourcePath(AllTypes[i])
        ensures IsTableOf(c, contentsOf, AllTypes[i], tables[i])
      {
        TablesOfAt(c, contentsOf, AllTypes, tables, i);
      }
    }
  }

  /** Each table of a type with a resource file is what that file builds. */
  predicate TablesOf(c: Catalog, contentsOf: string -> string, types: seq<TransportType>, tables: seq<Table>)
    requires |tables| <= |types|
    decreases |tables|
  {
    if tables == [] then true
    else
      var n := |tables| - 1;
      && TablesOf(c, contentsOf, types, tables[..n])
      && (HasResourcePath(types[n]) ==> IsTableOf(c, contentsOf, types[n], tables[n]))
  }

  /** The table of each type with a resource file is what that file builds. */
  lemma {:induction false} TablesOfAt(c: Catalog, contentsOf: string -> string, types: seq<TransportType>,
                                      tables: seq<Table>, i: int)
    requires |tables| <= |types| && TablesOf(c, contentsOf, types, tables)
    requires 0 <= i < |tables| && HasResourcePath(types[i])
    ensures IsTableOf(c, contentsOf, types[i], tables[i])
    decreases |tables|
  {
    var n := |tables| - 1;
    if i < n {
      TablesOfAt(c, contentsOf, types, tables[..n], i);
      assert tables[..n][i] == tables[i];
    }
  }

  /** Adding the next type's table keeps every table what its file builds. */
  lemma TablesOfStep(c: Catalog, contentsOf: string -> string, types: seq<TransportType>, tables: seq<Table>, table: Table)
    requires |tables| < |types| && TablesOf(c, contentsOf, types, tables)
    requires HasResourcePath(types[|tables|]) ==> IsTableOf(c, contentsOf, types[|tables|], table)
    ensures TablesOf(c, contentsOf, types, tables + [table])
  {
    assert (tables + [table])[..|tables|] == tables;
  }

  /** One pass of the type loop: a type without a resource file adds nothing. */
  method LoadType(c: Catalog, transports: map<int, set<Transport>>, contentsOf: string -> string, t: TransportType)
    returns (result: Result<map<int, set<Transport>>>, ghost table: Table)
    ensures result.Err? <==> TypeFails(c, contentsOf, t)
    ensures result.Ok? && HasResourcePath(t) ==> IsTableOf(c, contentsOf, t, table)
    ensures result.Ok? ==>
      result.value == if HasResourcePath(t) then Loaded(transports, InsertedRows(c.world, Elements(table.rows)), table.made.Values)
      else transports
  {
    if HasResourcePath(t) {
      result, table := LoadTable(c, transports, contentsOf, t);
    } else {
      result, table := Ok(transports), Table([], map[]);
    }
  }

  /** The type loop of `loadAllFromResources` over `types`. */
  method LoadTypes(c: Catalog, contentsOf: string -> string, types: seq<TransportType>)
    returns (result: Result<map<int, set<Transport>>>, ghost tables: seq<Table>)
    ensures result.Err? <==> exists t :: t in types && TypeFails(c, contentsOf, t)
    ensures result.Ok? ==> |tables| == |types| && TablesOf(c, contentsOf, types, tables)
    ensures result.Ok? ==> result.value == LoadedTables(c.world, types, tables)
  {
    var transports: map<int, set<Transport>> := map[];
    tables := [];
    for i := 0 to |types|
      invariant |tables| == i
      invariant forall j :: 0 <= j < i ==> !TypeFails(c, contentsOf, types[j])
      invariant TablesOf(c, contentsOf, types, tables)
      invariant transports == LoadedTables(c.world, types[..i], tables)
    {
      var loaded;
      ghost var table;
      loaded, table := LoadType(c, transports, contentsOf, types[i]);
      if loaded.Err? {
        return Err(loaded.error), tables;
      }
      transports := loaded.value;
      LoadedTablesStep(c.world, types, tables, i, table);
      NoneFailStep(c, contentsOf, types, i);
      TablesOfStep(c, contentsOf, types, tables, table);
      tables := tables + [table];
    }
    assert types[..|types|] == types;
    return Ok(transports), tables;
  }

  lemma NoneFailStep(c: Catalog, contentsOf: string -> string, types: seq<TransportType>, i: int)
    requires 0 <= i < |types|
    requires forall j :: 0 <= j < i ==> !TypeFails(c, contentsOf, types[j])
    requires !TypeFails(c, contentsOf, types[i])
    ensures forall j :: 0 <= j <= i ==> !TypeFails(c, contentsOf, types[j])
  {
  }
}
