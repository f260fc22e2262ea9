/** main.go's extractTimestamp: the most frequent plausible time stamp among all eight-byte windows of a record. */
module Timestamp {
  import opened Wrappers
  import opened Bytes
  import opened LogLaws

  const MIN_UNIX_NANO := 1_577_836_800 * 1_000_000_000
  const MAX_UNIX_NANO := 1_798_761_600 * 1_000_000_000

  predicate InRange(v: nat) {
    MIN_UNIX_NANO <= v <= MAX_UNIX_NANO
  }

  /** Midnight of the first of January in nanoseconds after that of 1970, up to the year 2100. */
  function NewYear(year: nat): (nanos: int)
    requires 1970 <= year <= 2100
  {
    (365 * (year - 1970) + (year - 1969) / 4) * 86_400 * 1_000_000_000
  }

  /** A time is plausible from the beginning of 2020 up to that of 2027. */
  lemma InRangeExactly(v: nat)
    ensures InRange(v) <==> NewYear(2020) <= v <= NewYear(2027)
  {
  }

  /** The little-endian value at position i. */
  function Window(record: seq<Byte>, i: nat): (v: nat)
    requires i + 8 <= |record|
  {
    DecodeLE(record, i, 8)
  }

  /** The number of windows below position n that hold v. */
  function Count(record: seq<Byte>, v: nat, n: nat): (c: nat)
    requires n == 0 || n + 7 <= |record|
  {
    if n == 0 then 0 else Count(record, v, n - 1) + if Window(record, n - 1) == v then 1 else 0
  }

  /** The first position below n whose window holds v, or n. */
  function First(record: seq<Byte>, v: nat, n: nat): (p: nat)
    requires n == 0 || n + 7 <= |record|
    ensures p <= n && (p < n <==> Count(record, v, n) > 0)
    ensures p < n ==> Window(record, p) == v
    ensures forall i | 0 <= i < p :: Window(record, i) != v
  {
    hide Window;
    if n == 0 then 0
    else
      var before := First(record, v, n - 1);
      if before < n - 1 then before else if Window(record, n - 1) == v then n - 1 else n
  }

  /** The number of windows of a record. */
  function Windows(record: seq<Byte>): (n: nat)
    ensures n == 0 || n + 7 == |record|
    ensures n == 0 <==> |record| < 8
  {
    if |record| < 8 then 0 else |record| - 7
  }

  /** v occurs, is in range, and no such value is more frequent, or as frequent and found earlier. */
  ghost predicate Best(record: seq<Byte>, v: nat) {
    var n := Windows(record);
    InRange(v) && Count(record, v, n) > 0 &&
    forall w: nat | InRange(w) && Count(record, w, n) > 0 :: !Beats(record, w, v)
  }

  predicate Beats(record: seq<Byte>, w: nat, v: nat) {
    var n := Windows(record);
    Count(record, w, n) > Count(record, v, n) ||
    (Count(record, w, n) == Count(record, v, n) && First(record, w, n) < First(record, v, n))
  }

  /** Distinct values never tie, so the result does not depend on the order in which the counts are visited. */
  lemma BestIsUnique(record: seq<Byte>, v: nat, w: nat)
    requires Best(record, v) && Best(record, w)
    ensures v == w
  {
    var n := Windows(record);
    assert !Beats(record, v, w) && !Beats(record, w, v);
    assert Window(record, First(record, v, n)) == v && Window(record, First(record, w, n)) == w;
  }

  // ----- What is best, in terms of the positions at which a value stands -----

  ghost function Positions(record: seq<Byte>, v: nat, n: nat): (at: set<nat>)
    requires n == 0 || n + 7 <= |record|
  {
    set i | 0 <= i < n && Window(record, i) == v
  }

  /** Eight bytes, the low one first. */
  lemma WindowBytes(record: seq<Byte>, i: nat)
    requires i + 8 <= |record|
    ensures Window(record, i)
         == record[i] as int + 0x100 * record[i + 1] as int + 0x1_0000 * record[i + 2] as int +
            0x100_0000 * record[i + 3] as int + 0x1_0000_0000 * record[i + 4] as int +
            0x100_0000_0000 * record[i + 5] as int + 0x1_0000_0000_0000 * record[i + 6] as int +
            0x100_0000_0000_0000 * record[i + 7] as int
  {
    LittleEndianFields(record, i);
    LittleEndianFields(record, i + 2);
    LittleEndianFields(record, i + 4);
    LittleEndianFields(record, i + 6);
  }

  lemma {:induction false} CountIsNumber(record: seq<Byte>, v: nat, n: nat)
    requires n == 0 || n + 7 <= |record|
    ensures Count(record, v, n) == |Positions(record, v, n)|
  {
    hide Window, Positions;
    if n == 0 {
      NoPositions(record, v);
    } else {
      CountIsNumber(record, v, n - 1);
      PositionsNext(record, v, n);
    }
  }

  lemma NoPositions(record: seq<Byte>, v: nat)
    ensures Positions(record, v, 0) == {}
  {
  }

  lemma PositionsNext(record: seq<Byte>, v: nat, n: nat)
    requires 0 < n && n + 7 <= |record|
    ensures |Positions(record, v, n)| == |Positions(record, v, n - 1)| + if Window(record, n - 1) == v then 1 else 0
  {
    hide Window;
    var before := Positions(record, v, n - 1);
    assert Positions(record, v, n) == if Window(record, n - 1) == v then before + {n - 1} else before;
  }

  /** The best value stands at more positions than any other in range, or at as many of which one comes first. */
  lemma BestStandsMostOften(record: seq<Byte>, v: nat, w: nat)
    requires Best(record, v) && InRange(w) && w != v
    ensures var n := Windows(record);
            var mine, others := Positions(record, v, n), Positions(record, w, n);
            InRange(v) && mine != {} &&
            (|others| < |mine| ||
             (|others| == |mine| && exists i | i in mine :: forall j | j in others :: i < j))
  {
    hide Window;
    var n := Windows(record);
    CountIsNumber(record, v, n);
    CountIsNumber(record, w, n);
    var i := First(record, v, n);
    assert i in Positions(record, v, n);
    if Count(record, w, n) == Count(record, v, n) {
      assert !Beats(record, w, v);
      forall j | j in Positions(record, w, n) ensures i < j {
        assert First(record, w, n) <= j;
      }
    }
  }

  datatype Candidate = Candidate(count: int, pos: nat) {
    predicate Beats(other: Candidate) {
      count > other.count || (count == other.count && pos < other.pos)
    }
  }

  /** The first loop: every in-range value with its count and first position. */
  method CountWindows(record: seq<Byte>) returns (counts: map<nat, Candidate>)
    ensures forall v :: v in counts <==> InRange(v) && Count(record, v, Windows(record)) > 0
    ensures forall v | v in counts ::
              counts[v] == Candidate(Count(record, v, Windows(record)), First(record, v, Windows(record)))
  {
    hide DecodeLE;
    counts := map[];
    for i := 0 to Windows(record)
      invariant forall v :: v in counts <==> InRange(v) && Count(record, v, i) > 0
      invariant forall v | v in counts :: counts[v] == Candidate(Count(record, v, i), First(record, v, i))
    {
      var v := Window(record, i);
      if InRange(v) {
        counts := counts[v := if v in counts then counts[v].(count := counts[v].count + 1) else Candidate(1, i)];
      }
    }
  }

  /** The second loop, which visits the counts in any order. */
  method PickBest(counts: map<nat, Candidate>, size: nat) returns (bestValue: nat)
    requires 0 !in counts && forall v | v in counts :: counts[v].count >= 0
    ensures bestValue == 0 <==> counts == map[]
    ensures bestValue != 0 ==> bestValue in counts && forall w | w in counts :: !counts[w].Beats(counts[bestValue])
  {
    var best := Candidate(-1, size + 1);
    bestValue := 0;
    var todo := counts.Keys;
    while todo != {}
      invariant todo <= counts.Keys
      invariant bestValue == 0 ==> todo == counts.Keys && best.count == -1
      invariant bestValue != 0 ==> bestValue in counts && best == counts[bestValue]
      invariant bestValue != 0 ==> forall w | w in counts && w !in todo :: !counts[w].Beats(best)
      decreases todo
    {
      var value :| value in todo;
      if counts[value].Beats(best) {
        bestValue, best := value, counts[value];
      }
      todo := todo - {value};
    }
  }

  /** None is the zero time. */
  method ExtractTimestamp(record: seq<Byte>) returns (r: Option<nat>)
    ensures r.Some? ==> Best(record, r.value)
    ensures r.None? ==> forall v: nat | InRange(v) :: Count(record, v, Windows(record)) == 0
  {
    hide Count, First, Windows;
    var counts := CountWindows(record);
    var bestValue := PickBest(counts, |record|);
    r := if bestValue == 0 then None else Some(bestValue);
  }
}
