/**
 First-fit matching of expected payments and memos against the instructions of a transaction.
 Every verifier of the repository matches this way: expectations are taken in order, each one scans the
 instructions from the start, skips those consumed earlier and consumes the first one that fits.
 */
module FirstFit {
  import opened Common

  /** What one instruction means to one expectation. */
  datatype Probe<+E> = Skip | Hit | Fail(error: E)

  /** One expectation: how each instruction answers it, and the error when none fits.
      `probes` is absent when the expectation is itself malformed. */
  datatype Row<+E> = Row(probes: Option<seq<Probe<E>>>, missing: E)

  datatype Outcome<+E> = Found(index: nat) | Missing | Broken(error: E)

  /** The first answer at or after `from` that is neither consumed nor a skip. */
  function Scan<E>(probes: seq<Probe<E>>, taken: set<nat>, from: nat): (o: Outcome<E>)
    requires from <= |probes|
    ensures o.Found? ==> from <= o.index < |probes| && o.index !in taken && probes[o.index].Hit?
    ensures o.Missing? ==> forall i :: from <= i < |probes| && i !in taken ==> probes[i].Skip?
    ensures o.Broken? ==> exists i :: from <= i < |probes| && i !in taken && probes[i] == Fail(o.error)
    decreases |probes| - from
  {
    if from == |probes| then Missing
    else if from in taken || probes[from].Skip? then Scan(probes, taken, from + 1)
    else if probes[from].Hit? then Found(from)
    else Broken(probes[from].error)
  }

  function MatchRow<E>(row: Row<E>, taken: set<nat>): Result<set<nat>, E> {
    match row.probes
    case None => Err(row.missing)
    case Some(probes) =>
      match Scan(probes, taken, 0)
      case Found(index) => Ok(taken + {index})
      case Missing => Err(row.missing)
      case Broken(error) => Err(error)
  }

  /** A scan that has passed the positions before `i`. */
  ghost predicate ScannedTo<E>(row: Row<E>, taken: set<nat>, i: nat) {
    && row.probes.Some?
    && i <= |row.probes.value|
    && Scan(row.probes.value, taken, 0) == Scan(row.probes.value, taken, i)
  }

  /** One position of the scan: it is passed, it is found, or its probe fails. */
  lemma {:induction false} ScanStep<E>(row: Row<E>, taken: set<nat>, i: nat)
    requires ScannedTo(row, taken, i) && i < |row.probes.value|
    ensures i in taken || row.probes.value[i].Skip? ==> ScannedTo(row, taken, i + 1)
    ensures i !in taken && row.probes.value[i].Hit? ==> MatchRow(row, taken) == Ok(taken + {i})
    ensures i !in taken && row.probes.value[i].Fail? ==> MatchRow(row, taken) == Err(row.probes.value[i].error)
  {
  }

  lemma {:induction false} ScanEnd<E>(row: Row<E>, taken: set<nat>)
    requires row.probes.Some? && ScannedTo(row, taken, |row.probes.value|)
    ensures MatchRow(row, taken) == Err(row.missing)
  {
  }

  function MatchAll<E>(rows: seq<Row<E>>, taken: set<nat>): Result<set<nat>, E> {
    if rows == [] then Ok(taken)
    else
      match MatchRow(rows[0], taken)
      case Ok(taken') => MatchAll(rows[1..], taken')
      case Err(error) => Err(error)
  }

  /** The rows from the `k`-th on: that row and the rows after it. */
  lemma {:induction false} MatchAllStep<E>(rows: seq<Row<E>>, k: nat, taken: set<nat>)
    requires k < |rows|
    ensures MatchAll(rows[k..], taken) ==
            match MatchRow(rows[k], taken) { case Ok(taken') => MatchAll(rows[k + 1..], taken') case Err(error) => Err(error) }
  {
    assert rows[k..][1..] == rows[k + 1..];
  }

  lemma {:induction false} MatchAllConcat<E>(a: seq<Row<E>>, b: seq<Row<E>>, taken: set<nat>)
    ensures MatchAll(a + b, taken) ==
            match MatchAll(a, taken) { case Ok(taken') => MatchAll(b, taken') case Err(error) => Err(error) }
  {
    if a == [] {
      assert a + b == b;
    } else {
      assert (a + b)[0] == a[0];
      assert (a + b)[1..] == a[1..] + b;
      match MatchRow(a[0], taken)
      case Ok(taken') => MatchAllConcat(a[1..], b, taken');
      case Err(_) =>
    }
  }

  // ── More positions after the others ──

  lemma {:induction false} ScanExtends<E>(a: seq<Probe<E>>, b: seq<Probe<E>>, taken: set<nat>, from: nat)
    requires from <= |a| && a <= b && Scan(a, taken, from).Found?
    ensures Scan(b, taken, from) == Scan(a, taken, from)
    decreases |a| - from
  {
    if from in taken || a[from].Skip? {
      ScanExtends(a, b, taken, from + 1);
    }
  }

  predicate RowExtends<E(==)>(row: Row<E>, row': Row<E>) {
    row.probes.Some? ==> row'.probes.Some? && row.probes.value <= row'.probes.value
  }

  /** First-fit finds the same positions when more positions follow. */
  lemma {:induction false} MatchAllExtends<E>(rows: seq<Row<E>>, rows': seq<Row<E>>, taken: set<nat>)
    requires |rows| == |rows'| && forall k :: 0 <= k < |rows| ==> RowExtends(rows[k], rows'[k])
    requires MatchAll(rows, taken).Ok?
    ensures MatchAll(rows', taken) == MatchAll(rows, taken)
    decreases rows
  {
    if rows != [] {
      assert RowExtends(rows[0], rows'[0]);
      ScanExtends(rows[0].probes.value, rows'[0].probes.value, taken, 0);
      forall k | 0 <= k < |rows[1..]| ensures RowExtends(rows[1..][k], rows'[1..][k]) {
        assert RowExtends(rows[k + 1], rows'[k + 1]);
      }
      MatchAllExtends(rows[1..], rows'[1..], MatchRow(rows[0], taken).value);
    }
  }

  // ── What the instructions offer ──

  /** The items offered by the positions that are not consumed yet. */
  function Offered<K>(keys: seq<Option<K>>, taken: set<nat>): multiset<K> {
    if keys == [] then multiset{}
    else
      var last := |keys| - 1;
      Offered(keys[..last], taken) + OfferedAlone(keys[last], last !in taken)
  }

  lemma {:induction false} OfferedTake<K>(keys: seq<Option<K>>, taken: set<nat>, i: nat)
    requires i < |keys| && i !in taken && keys[i].Some?
    ensures Offered(keys, taken) == Offered(keys, taken + {i}) + multiset{keys[i].value}
  {
    var last := |keys| - 1;
    if i < last {
      OfferedTake(keys[..last], taken, i);
      OfferedMore(keys, taken, taken + {i}, keys[i].value);
    } else {
      OfferedIrrelevant(keys[..last], taken, i);
      OfferedLast(keys, taken);
    }
  }

  /** What is offered before the last position and differs by one item still does with the last position. */
  lemma {:induction false} OfferedMore<K>(keys: seq<Option<K>>, taken: set<nat>, taken': set<nat>, k: K)
    requires keys != [] && (|keys| - 1 in taken' <==> |keys| - 1 in taken)
    requires Offered(keys[..|keys| - 1], taken) == Offered(keys[..|keys| - 1], taken') + multiset{k}
    ensures Offered(keys, taken) == Offered(keys, taken') + multiset{k}
  {
    OfferedSnoc(keys, taken);
    OfferedSnoc(keys, taken');
  }

  lemma {:induction false} OfferedLast<K>(keys: seq<Option<K>>, taken: set<nat>)
    requires keys != [] && keys[|keys| - 1].Some? && |keys| - 1 !in taken
    requires Offered(keys[..|keys| - 1], taken + {|keys| - 1}) == Offered(keys[..|keys| - 1], taken)
    ensures Offered(keys, taken) == Offered(keys, taken + {|keys| - 1}) + multiset{keys[|keys| - 1].value}
  {
    OfferedSnoc(keys, taken);
    OfferedSnoc(keys, taken + {|keys| - 1});
  }

  lemma {:induction false} OfferedSnoc<K>(keys: seq<Option<K>>, taken: set<nat>)
    requires keys != []
    ensures var last := |keys| - 1;
      Offered(keys, taken) == Offered(keys[..last], taken) + OfferedAlone(keys[last], last !in taken)
  {
  }

  function OfferedAlone<K>(key: Option<K>, free: bool): multiset<K> {
    if key.Some? && free then multiset{key.value} else multiset{}
  }

  lemma {:induction false} OfferedIrrelevant<K>(keys: seq<Option<K>>, taken: set<nat>, i: nat)
    requires |keys| <= i || i in taken
    ensures Offered(keys, taken + {i}) == Offered(keys, taken)
  {
    if keys != [] {
      OfferedIrrelevant(keys[..|keys| - 1], taken, i);
    }
  }

  lemma {:induction false} OfferedAt<K>(keys: seq<Option<K>>, taken: set<nat>, k: K) returns (i: nat)
    requires k in Offered(keys, taken)
    ensures i < |keys| && i !in taken && keys[i] == Some(k)
  {
    var last := |keys| - 1;
    if keys[last] == Some(k) && last !in taken {
      i := last;
    } else {
      assert k in Offered(keys[..last], taken);
      i := OfferedAt(keys[..last], taken, k);
    }
  }

  lemma {:induction false} OfferedNothing<K>(keys: seq<Option<K>>, taken: set<nat>)
    requires forall i :: 0 <= i < |keys| && keys[i].Some? ==> i in taken
    ensures Offered(keys, taken) == multiset{}
  {
    if keys != [] {
      OfferedNothing(keys[..|keys| - 1], taken);
    }
  }

  lemma {:induction false} OfferedConcat<K>(a: seq<Option<K>>, b: seq<Option<K>>)
    ensures Offered(a + b, {}) == Offered(a, {}) + Offered(b, {})
  {
    if b == [] {
      assert a + b == a;
    } else {
      var last := |b| - 1;
      assert (a + b)[..|a + b| - 1] == a + b[..last];
      OfferedConcat(a, b[..last]);
    }
  }

  // ── Greedy matching against offers ──

  /** A row hits only positions that offer its want. */
  ghost predicate RowHitsMean<K, E>(row: Row<E>, want: K, keys: seq<Option<K>>) {
    row.probes.Some? ==>
      forall i :: 0 <= i < |row.probes.value| && row.probes.value[i].Hit? ==> i < |keys| && keys[i] == Some(want)
  }

  ghost predicate HitsMean<K, E>(rows: seq<Row<E>>, wants: seq<K>, keys: seq<Option<K>>) {
    && |rows| == |wants|
    && forall k :: 0 <= k < |rows| ==> RowHitsMean(rows[k], wants[k], keys)
  }

  /** Soundness: whatever was consumed is exactly what was wanted, one position per want. */
  lemma {:induction false} MatchAllConsumes<K, E>(
    rows: seq<Row<E>>, wants: seq<K>, keys: seq<Option<K>>, taken: set<nat>)
    requires HitsMean(rows, wants, keys)
    requires MatchAll(rows, taken).Ok?
    ensures taken <= MatchAll(rows, taken).value
    ensures Offered(keys, taken) == Offered(keys, MatchAll(rows, taken).value) + multiset(wants)
    ensures |MatchAll(rows, taken).value| == |taken| + |wants|
  {
    if rows != [] {
      var i := MatchRowConsumes(rows[0], wants[0], keys, taken);
      RestMeans(rows, wants, keys);
      MatchAllConsumes(rows[1..], wants[1..], keys, taken + {i});
      OfferedTake(keys, taken, i);
      WantsCons(wants);
      TakeAll(
        Offered(keys, taken), Offered(keys, taken + {i}), Offered(keys, MatchAll(rows, taken).value), wants[0],
        multiset(wants[1..]));
    }
  }

  lemma {:induction false} MatchRowConsumes<K, E>(row: Row<E>, want: K, keys: seq<Option<K>>, taken: set<nat>) returns (i: nat)
    requires RowHitsMean(row, want, keys) && MatchRow(row, taken).Ok?
    ensures MatchRow(row, taken) == Ok(taken + {i}) && i !in taken && i < |keys| && keys[i] == Some(want)
  {
    i := Scan(row.probes.value, taken, 0).index;
  }

  lemma {:induction false} RestMeans<K, E>(rows: seq<Row<E>>, wants: seq<K>, keys: seq<Option<K>>)
    requires HitsMean(rows, wants, keys) && rows != []
    ensures HitsMean(rows[1..], wants[1..], keys)
  {
    forall k | 0 <= k < |rows[1..]| ensures RowHitsMean(rows[1..][k], wants[1..][k], keys) {
      assert RowHitsMean(rows[k + 1], wants[k + 1], keys);
    }
  }

  lemma {:induction false} TakeAll<K>(a: multiset<K>, b: multiset<K>, c: multiset<K>, k: K, wants: multiset<K>)
    requires a == b + multiset{k} && b == c + wants
    ensures a == c + (multiset{k} + wants)
  {
  }

  lemma {:induction false} WantsCons<K>(wants: seq<K>)
    requires wants != []
    ensures multiset(wants) == multiset{wants[0]} + multiset(wants[1..])
  {
    assert wants == [wants[0]] + wants[1..];
  }

  /** Each consumed position was hit by some row. */
  lemma {:induction false} ConsumedIsHit<E>(rows: seq<Row<E>>, taken: set<nat>, i: nat)
    requires MatchAll(rows, taken).Ok?
    requires i in MatchAll(rows, taken).value && i !in taken
    ensures exists k :: 0 <= k < |rows| && RowHits(rows[k], i)
  {
    if rows != [] {
      var taken' := MatchRow(rows[0], taken).value;
      if i in taken' {
        assert RowHits(rows[0], i);
      } else {
        ConsumedIsHit(rows[1..], taken', i);
        var k :| 0 <= k < |rows[1..]| && RowHits(rows[1..][k], i);
        assert RowHits(rows[k + 1], i);
      }
    }
  }

  predicate RowHits<E>(row: Row<E>, i: nat) {
    row.probes.Some? && i < |row.probes.value| && row.probes.value[i].Hit?
  }

  /** Rows that answer every free position by its offer alone, never with an error. */
  ghost predicate AnswersByOffer<K, E>(rows: seq<Row<E>>, wants: seq<K>, keys: seq<Option<K>>, taken: set<nat>) {
    && |rows| == |wants|
    && forall k :: 0 <= k < |rows| ==> RowByOffer(rows[k], wants[k], keys, taken)
  }

  ghost predicate RowByOffer<K, E>(row: Row<E>, want: K, keys: seq<Option<K>>, taken: set<nat>) {
    && row.probes.Some?
    && |row.probes.value| == |keys|
    && forall i :: 0 <= i < |keys| && i !in taken ==> row.probes.value[i] == if keys[i] == Some(want) then Hit else Skip
  }

  lemma {:induction false} AddBothSides<K>(a: multiset<K>, b: multiset<K>, k: K)
    ensures multiset{k} + a <= b + multiset{k} <==> a <= b
  {
    if multiset{k} + a <= b + multiset{k} {
      forall x ensures a[x] <= b[x] {
        assert (multiset{k} + a)[x] <= (b + multiset{k})[x];
      }
    }
  }

  /** Optimality: first-fit succeeds exactly when the wants are among the offers, however it commits. */
  lemma {:induction false} MatchAllIff<K, E>(
    rows: seq<Row<E>>, wants: seq<K>, keys: seq<Option<K>>, taken: set<nat>)
    requires AnswersByOffer(rows, wants, keys, taken)
    ensures MatchAll(rows, taken).Ok? <==> multiset(wants) <= Offered(keys, taken)
  {
    if rows != [] {
      assert wants == [wants[0]] + wants[1..];
      assert RowByOffer(rows[0], wants[0], keys, taken);
      match Scan(rows[0].probes.value, taken, 0)
      case Found(i) =>
        OfferedTake(keys, taken, i);
        forall k | 0 <= k < |rows[1..]| ensures RowByOffer(rows[1..][k], wants[1..][k], keys, taken + {i}) {
          assert RowByOffer(rows[k + 1], wants[k + 1], keys, taken);
        }
        MatchAllIff(rows[1..], wants[1..], keys, taken + {i});
        AddBothSides(multiset(wants[1..]), Offered(keys, taken + {i}), wants[0]);
      case Missing =>
        if multiset(wants) <= Offered(keys, taken) {
          assert wants[0] in multiset(wants);
          var i := OfferedAt(keys, taken, wants[0]);
          assert false;
        }
      case Broken(error) =>
    }
  }

  // ── Assignments ──

  /** Each want has a position of its own that is free and offers it. */
  ghost predicate IsAssignment<K>(chosen: seq<nat>, wants: seq<K>, keys: seq<Option<K>>, taken: set<nat>) {
    && |chosen| == |wants|
    && (forall k :: 0 <= k < |chosen| ==>
          chosen[k] < |keys| && chosen[k] !in taken && keys[chosen[k]] == Some(wants[k]))
    && (forall j, k :: 0 <= j < k < |chosen| ==> chosen[j] != chosen[k])
  }

  lemma {:induction false} OffersAssign<K>(wants: seq<K>, keys: seq<Option<K>>, taken: set<nat>) returns (chosen: seq<nat>)
    requires multiset(wants) <= Offered(keys, taken)
    ensures IsAssignment(chosen, wants, keys, taken)
  {
    if wants == [] {
      chosen := [];
    } else {
      assert wants == [wants[0]] + wants[1..];
      assert wants[0] in multiset(wants);
      var i := OfferedAt(keys, taken, wants[0]);
      OfferedTake(keys, taken, i);
      AddBothSides(multiset(wants[1..]), Offered(keys, taken + {i}), wants[0]);
      var rest := OffersAssign(wants[1..], keys, taken + {i});
      AssignFirst(i, rest, wants, keys, taken);
      chosen := [i] + rest;
    }
  }

  lemma {:induction false} AssignFirst<K>(i: nat, rest: seq<nat>, wants: seq<K>, keys: seq<Option<K>>, taken: set<nat>)
    requires wants != [] && i < |keys| && i !in taken && keys[i] == Some(wants[0])
    requires IsAssignment(rest, wants[1..], keys, taken + {i})
    ensures IsAssignment([i] + rest, wants, keys, taken)
  {
    var chosen := [i] + rest;
    forall k | 0 <= k < |chosen| ensures chosen[k] < |keys| && chosen[k] !in taken && keys[chosen[k]] == Some(wants[k]) {
      if k > 0 {
        assert chosen[k] == rest[k - 1] && wants[k] == wants[1..][k - 1];
      }
    }
  }

  lemma {:induction false} AssignmentOffers<K>(chosen: seq<nat>, wants: seq<K>, keys: seq<Option<K>>, taken: set<nat>)
    requires IsAssignment(chosen, wants, keys, taken)
    ensures multiset(wants) <= Offered(keys, taken)
  {
    if wants != [] {
      assert wants == [wants[0]] + wants[1..];
      var i := chosen[0];
      OfferedTake(keys, taken, i);
      AssignmentOffers(chosen[1..], wants[1..], keys, taken + {i});
      AddBothSides(multiset(wants[1..]), Offered(keys, taken + {i}), wants[0]);
    }
  }

  // ── When everything offered is wanted ──

  lemma {:induction false} NothingLeft<K>(left: multiset<K>, wants: multiset<K>)
    requires wants == left + wants
    ensures left == multiset{}
  {
    assert |left + wants| == |left| + |wants|;
  }

  lemma {:induction false} OfferedOut<K>(keys: seq<Option<K>>, taken: set<nat>, i: nat)
    requires Offered(keys, taken) == multiset{}
    requires i < |keys| && keys[i].Some?
    ensures i in taken
  {
    if i !in taken {
      OfferedTake(keys, taken, i);
    }
  }

  /** When the offers are exactly the wants, matching succeeds and leaves no offer behind. */
  lemma {:induction false} MatchesEverything<K, E>(rows: seq<Row<E>>, wants: seq<K>, keys: seq<Option<K>>)
    requires AnswersByOffer(rows, wants, keys, {})
    requires Offered(keys, {}) == multiset(wants)
    ensures MatchAll(rows, {}).Ok?
    ensures forall i :: 0 <= i < |keys| && keys[i].Some? ==> i in MatchAll(rows, {}).value
  {
    MatchAllIff(rows, wants, keys, {});
    forall k | 0 <= k < |rows| ensures RowHitsMean(rows[k], wants[k], keys) {
      assert RowByOffer(rows[k], wants[k], keys, {});
    }
    MatchAllConsumes(rows, wants, keys, {});
    var matched := MatchAll(rows, {}).value;
    NothingLeft(Offered(keys, matched), multiset(wants));
    forall i | 0 <= i < |keys| && keys[i].Some? ensures i in matched {
      OfferedOut(keys, matched, i);
    }
  }
}
