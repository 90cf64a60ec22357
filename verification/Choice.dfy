/** First-fit matching as a choice of positions: what success means, and which choices guarantee it. */
module Choice {
  import opened Common
  import opened FirstFit

  predicate AreDistinct(chosen: seq<nat>) {
    forall j, k :: 0 <= j < k < |chosen| ==> chosen[j] != chosen[k]
  }

  /** Each row has a free position of its own that fits it. */
  ghost predicate IsChoice<E>(rows: seq<Row<E>>, taken: set<nat>, chosen: seq<nat>) {
    && |chosen| == |rows| && AreDistinct(chosen)
    && forall k :: 0 <= k < |rows| ==> RowHits(rows[k], chosen[k]) && chosen[k] !in taken
  }

  /** Successful matching is a choice of positions, and consumes exactly those. */
  lemma {:induction false} MatchAllChooses<E>(rows: seq<Row<E>>, taken: set<nat>) returns (chosen: seq<nat>)
    requires MatchAll(rows, taken).Ok?
    ensures IsChoice(rows, taken, chosen)
    ensures forall i :: i in MatchAll(rows, taken).value <==> i in taken || i in chosen
  {
    if rows == [] {
      chosen := [];
    } else {
      var i := Scan(rows[0].probes.value, taken, 0).index;
      var rest := MatchAllChooses(rows[1..], taken + {i});
      chosen := [i] + rest;
      ChoiceCons(rows, taken, i, rest);
    }
  }

  lemma {:induction false} ChoiceCons<E>(rows: seq<Row<E>>, taken: set<nat>, i: nat, rest: seq<nat>)
    requires rows != [] && RowHits(rows[0], i) && i !in taken && IsChoice(rows[1..], taken + {i}, rest)
    ensures IsChoice(rows, taken, [i] + rest)
  {
    var chosen := [i] + rest;
    forall k | 0 <= k < |rows| ensures RowHits(rows[k], chosen[k]) && chosen[k] !in taken {
      if k > 0 {
        assert RowHits(rows[1..][k - 1], rest[k - 1]);
      }
    }
    forall j, k | 0 <= j < k < |chosen| ensures chosen[j] != chosen[k] {
      assert chosen[k] == rest[k - 1] && rest[k - 1] !in taken + {i};
    }
  }

  /** The want that a chosen position answers. */
  function WantAt<K>(chosen: seq<nat>, wants: seq<K>, i: nat): (w: Option<K>)
    requires |chosen| == |wants|
    ensures w.Some? <==> i in chosen
    ensures w.Some? ==> exists k :: 0 <= k < |chosen| && chosen[k] == i && wants[k] == w.value
    decreases chosen
  {
    if chosen == [] then None
    else if chosen[0] == i then Some(wants[0])
    else
      var w := WantAt(chosen[1..], wants[1..], i);
      assert w.Some? ==> exists k :: 0 <= k < |chosen[1..]| && chosen[1..][k] == i && wants[1..][k] == w.value;
      assert w.Some? ==> exists k :: 0 <= k < |chosen| && chosen[k] == i && wants[k] == w.value by {
        if w.Some? {
          var k :| 0 <= k < |chosen[1..]| && chosen[1..][k] == i && wants[1..][k] == w.value;
          assert chosen[k + 1] == i && wants[k + 1] == w.value;
        }
      }
      assert chosen == [chosen[0]] + chosen[1..];
      w
  }

  function WantsByPosition<K>(n: nat, chosen: seq<nat>, wants: seq<K>): seq<Option<K>>
    requires |chosen| == |wants|
  {
    seq(n, i requires 0 <= i < n => WantAt(chosen, wants, i))
  }

  /** Every chosen position answers exactly the wants equal to its own, and no other position answers any. */
  ghost predicate AnswersByChoice<K, E>(row: Row<E>, want: K, n: nat, chosen: seq<nat>, wants: seq<K>) {
    && row.probes.Some? && |row.probes.value| == n && |chosen| == |wants|
    && (forall k :: 0 <= k < |chosen| ==>
          chosen[k] < n && row.probes.value[chosen[k]] == if wants[k] == want then Hit else Skip)
    && forall i :: 0 <= i < n && i !in chosen ==> row.probes.value[i] == Skip
  }

  lemma {:induction false} ChoiceIsOffer<K, E>(row: Row<E>, want: K, n: nat, chosen: seq<nat>, wants: seq<K>)
    requires AnswersByChoice(row, want, n, chosen, wants)
    ensures RowByOffer(row, want, WantsByPosition(n, chosen, wants), {})
  {
    var keys := WantsByPosition(n, chosen, wants);
    forall i | 0 <= i < n ensures row.probes.value[i] == if keys[i] == Some(want) then Hit else Skip {
      assert keys[i] == WantAt(chosen, wants, i);
      if i in chosen {
        var k :| 0 <= k < |chosen| && chosen[k] == i && wants[k] == keys[i].value;
      }
    }
  }

  /** Positions of one's own for all wants, with nothing else on offer. */
  lemma {:induction false} CoveredOffers<K>(keys: seq<Option<K>>, chosen: seq<nat>, wants: seq<K>, taken: set<nat>)
    requires IsAssignment(chosen, wants, keys, taken)
    requires forall i :: 0 <= i < |keys| && keys[i].Some? && i !in taken ==> i in chosen
    ensures Offered(keys, taken) == multiset(wants)
    decreases chosen
  {
    if chosen == [] {
      assert wants == [];
      OfferedNothing(keys, taken);
    } else {
      OfferedTake(keys, taken, chosen[0]);
      RestAssigned(keys, chosen, wants, taken);
      forall i | 0 <= i < |keys| && keys[i].Some? && i !in taken + {chosen[0]} ensures i in chosen[1..] {
        assert chosen == [chosen[0]] + chosen[1..];
      }
      CoveredOffers(keys, chosen[1..], wants[1..], taken + {chosen[0]});
      WantsCons(wants);
    }
  }

  lemma {:induction false} RestAssigned<K>(keys: seq<Option<K>>, chosen: seq<nat>, wants: seq<K>, taken: set<nat>)
    requires chosen != [] && IsAssignment(chosen, wants, keys, taken)
    ensures IsAssignment(chosen[1..], wants[1..], keys, taken + {chosen[0]})
  {
    var rest := chosen[1..];
    forall k | 0 <= k < |rest| ensures rest[k] < |keys| && rest[k] !in taken + {chosen[0]} && keys[rest[k]] == Some(wants[1..][k]) {
      assert chosen[0] != chosen[k + 1];
    }
    forall j, k | 0 <= j < k < |rest| ensures rest[j] != rest[k] {
      assert chosen[j + 1] != chosen[k + 1];
    }
  }

  lemma {:induction false} ChoiceIsAssignment<K>(n: nat, chosen: seq<nat>, wants: seq<K>)
    requires |chosen| == |wants| && AreDistinct(chosen) && forall k :: 0 <= k < |chosen| ==> chosen[k] < n
    ensures IsAssignment(chosen, wants, WantsByPosition(n, chosen, wants), {})
  {
    var keys := WantsByPosition(n, chosen, wants);
    forall k | 0 <= k < |chosen| ensures keys[chosen[k]] == Some(wants[k]) {
      var w := WantAt(chosen, wants, chosen[k]);
      assert w.Some?;
      var j :| 0 <= j < |chosen| && chosen[j] == chosen[k] && wants[j] == w.value;
      assert j == k;
    }
  }

  /** A choice that answers unambiguously is enough: greedy matching succeeds and consumes the chosen positions. */
  lemma {:induction false} ChoiceSuffices<K, E>(rows: seq<Row<E>>, wants: seq<K>, n: nat, chosen: seq<nat>)
    requires |rows| == |wants| == |chosen| && AreDistinct(chosen)
    requires forall k :: 0 <= k < |rows| ==> AnswersByChoice(rows[k], wants[k], n, chosen, wants)
    ensures MatchAll(rows, {}).Ok?
    ensures forall i :: i in chosen ==> i in MatchAll(rows, {}).value
  {
    var keys := WantsByPosition(n, chosen, wants);
    forall k | 0 <= k < |rows| ensures RowByOffer(rows[k], wants[k], keys, {}) {
      ChoiceIsOffer(rows[k], wants[k], n, chosen, wants);
    }
    forall k | 0 <= k < |chosen| ensures chosen[k] < n {
      assert AnswersByChoice(rows[k], wants[k], n, chosen, wants);
    }
    ChoiceIsAssignment(n, chosen, wants);
    forall i | 0 <= i < |keys| && keys[i].Some? ensures i in chosen {
      assert keys[i] == WantAt(chosen, wants, i);
    }
    CoveredOffers(keys, chosen, wants, {});
    MatchesEverything(rows, wants, keys);
    forall i | i in chosen ensures i in MatchAll(rows, {}).value {
      assert keys[i] == WantAt(chosen, wants, i);
    }
  }

  // ── Counting offers ──

  lemma {:induction false} CountLast<K>(keys: seq<Option<K>>, k: K)
    requires keys != []
    ensures var last := |keys| - 1;
      Offered(keys, {})[k] == Offered(keys[..last], {})[k] + if keys[last] == Some(k) then 1 else 0
  {
    OfferedSnoc(keys, {});
  }

  /** How often an item is offered depends only on the positions that offer it. */
  lemma {:induction false} SameCount<K>(keys: seq<Option<K>>, keys': seq<Option<K>>, k: K)
    requires |keys| == |keys'| && forall i :: 0 <= i < |keys| ==> (keys[i] == Some(k) <==> keys'[i] == Some(k))
    ensures Offered(keys, {})[k] == Offered(keys', {})[k]
    decreases keys
  {
    if keys != [] {
      var last := |keys| - 1;
      CountLast(keys, k);
      CountLast(keys', k);
      SameCount(keys[..last], keys'[..last], k);
    }
  }

  lemma {:induction false} NoneOffered<K>(keys: seq<Option<K>>, k: K)
    requires forall i :: 0 <= i < |keys| ==> keys[i] != Some(k)
    ensures Offered(keys, {})[k] == 0
    decreases keys
  {
    if keys != [] {
      CountLast(keys, k);
      NoneOffered(keys[..|keys| - 1], k);
    }
  }

  lemma {:induction false} FreeIsOffered<K>(keys: seq<Option<K>>, taken: set<nat>, i: nat)
    requires i < |keys| && keys[i].Some? && i !in taken
    ensures keys[i].value in Offered(keys, taken)
  {
    OfferedTake(keys, taken, i);
  }

  lemma {:induction false} RestExhausted<K>(keys: seq<Option<K>>, i: nat, wants: seq<K>, taken: set<nat>)
    requires wants != [] && i < |keys| && i !in taken && keys[i] == Some(wants[0]) && Offered(keys, taken) == multiset(wants)
    ensures Offered(keys, taken + {i}) == multiset(wants[1..])
  {
    OfferedTake(keys, taken, i);
    WantsCons(wants);
    RemoveOne(wants[0], Offered(keys, taken + {i}), multiset(wants[1..]));
  }

  lemma {:induction false} RemoveOne<K>(k: K, a: multiset<K>, b: multiset<K>)
    requires multiset{k} + a == multiset{k} + b
    ensures a == b
  {
    assert a == (multiset{k} + a) - multiset{k};
  }

  /** When the wants are all that is on offer, an assignment covers every offering position. */
  lemma {:induction false} ExhaustedIsCovered<K>(keys: seq<Option<K>>, chosen: seq<nat>, wants: seq<K>, taken: set<nat>)
    requires IsAssignment(chosen, wants, keys, taken) && Offered(keys, taken) == multiset(wants)
    ensures forall i :: 0 <= i < |keys| && keys[i].Some? && i !in taken ==> i in chosen
    decreases chosen
  {
    if chosen == [] {
      assert wants == [];
      forall i | 0 <= i < |keys| && keys[i].Some? && i !in taken ensures keys[i].value in Offered(keys, taken) {
        FreeIsOffered(keys, taken, i);
      }
    } else {
      RestExhausted(keys, chosen[0], wants, taken);
      RestAssigned(keys, chosen, wants, taken);
      ExhaustedIsCovered(keys, chosen[1..], wants[1..], taken + {chosen[0]});
      assert chosen == [chosen[0]] + chosen[1..];
    }
  }
}
