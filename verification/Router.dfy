/** src/wal/router.rs and src/wal/transaction.rs: buffered hints and their delivery to documents. */
module Router {
  import opened Basics
  import opened WalTypes
  import opened HintGenerator

  /** The hints of one open transaction. */
  class TransactionBuffer {
    var hints: set<QueryHint>

    constructor ()
      ensures hints == {}
    {
      hints := {};
    }

    method AddAll(more: seq<QueryHint>)
      modifies this
      ensures hints == old(hints) + set h | h in more
    {
      for i := 0 to |more|
        invariant hints == old(hints) + set h | h in more[..i]
      {
        hints := hints + {more[i]};
        assert more[..i + 1] == more[..i] + [more[i]];
      }
      assert more[..|more|] == more;
    }

    method Take() returns (taken: set<QueryHint>)
      modifies this
      ensures taken == old(hints) && hints == {}
    {
      taken := hints;
      hints := {};
    }
  }

  function RouteKey(h: QueryHint): Option<Str> {
    if h.table == COMMENTS && h.column == DOCUMENT_ID then Some(h.value)
    else if h.table == DOCUMENTS && h.column == ID then Some(h.value)
    else None
  }

  /** `bucket` lists, in some order and without repetition, the hints that go to `document`. */
  ghost predicate IsBucket(bucket: seq<QueryHint>, hints: set<QueryHint>, document: Str) {
    && NoDuplicates(bucket)
    && forall h :: h in bucket <==> h in hints && RouteKey(h) == Some(document)
  }

  /** A document has a bucket exactly when some hint goes there. Orders are left open. */
  ghost predicate IsRouting(hints: set<QueryHint>, out: map<Str, seq<QueryHint>>) {
    && (forall d :: d in out ==> out[d] != [] && IsBucket(out[d], hints, d))
    && (forall h :: h in hints && RouteKey(h).Some? ==> RouteKey(h).value in out)
  }

  /** The iteration order of the hash set is an arbitrary choice. */
  method Route(hints: set<QueryHint>) returns (out: map<Str, seq<QueryHint>>)
    ensures IsRouting(hints, out)
  {
    out := map[];
    var todo := hints;
    while todo != {}
      invariant todo <= hints
      invariant IsRouting(hints - todo, out)
    {
      var h :| h in todo;
      ghost var before, done := out, hints - todo;
      todo := todo - {h};
      assert hints - todo == done + {h} && h !in done;
      var key := RouteKey(h);
      if key.Some? {
        out := out[key.value := (if key.value in out then out[key.value] else []) + [h]];
        forall d | d in out ensures out[d] != [] && IsBucket(out[d], done + {h}, d) {
          if d == key.value {
            assert d in before ==> IsBucket(before[d], done, d);
          } else {
            assert IsBucket(before[d], done, d);
          }
        }
      }
    }
    assert hints - todo == hints;
  }

  /** A hint goes to the document that is its value if it is one of the two kinds, and else nowhere. */
  lemma RoutedExactly(hints: set<QueryHint>, out: map<Str, seq<QueryHint>>, h: QueryHint, d: Str)
    requires IsRouting(hints, out)
    ensures d in out && h in out[d] <==>
              h in hints && h.value == d
              && ((h.table == COMMENTS && h.column == DOCUMENT_ID) || (h.table == DOCUMENTS && h.column == ID))
  {
    assert d in out ==> IsBucket(out[d], hints, d);
  }

  /**
   Routing conserves what the generator emits: each hint lands in the bucket of its document and in no
   other, and a bucket holds one or two hints.
   */
  lemma RoutingConserves(hints: set<QueryHint>, out: map<Str, seq<QueryHint>>)
    requires IsRouting(hints, out)
    requires forall h :: h in hints ==> Generated(h)
    ensures forall h, d :: h in hints && d in out ==> (h in out[d] <==> d == h.value)
    ensures forall h :: h in hints ==> h.value in out && h in out[h.value]
    ensures forall d :: d in out ==> 1 <= |out[d]| <= 2 && Dedupe(out[d]) == out[d]
  {
    forall d | d in out ensures 1 <= |out[d]| <= 2 && Dedupe(out[d]) == out[d] {
      var bucket := out[d];
      assert IsBucket(bucket, hints, d);
      forall h | h in bucket ensures h in {CommentHint(d), DocumentHint(d)} {
        assert Generated(h);
      }
      DistinctWithin(bucket, {CommentHint(d), DocumentHint(d)});
      DedupeIsIdentity(bucket);
    }
    forall h | h in hints ensures h.value in out && h in out[h.value] {
      assert Generated(h);
      assert RouteKey(h) == Some(h.value);
      assert IsBucket(out[h.value], hints, h.value);
    }
  }

  // ---------- dedupe_routed_hints ----------

  /** Keeps the first occurrence of each element. */
  function Dedupe<T(==)>(s: seq<T>): seq<T> {
    if s == [] then [] else
      var k := |s| - 1;
      if s[k] in s[..k] then Dedupe(s[..k]) else Dedupe(s[..k]) + [s[k]]
  }

  /** The position of the first occurrence. */
  function FirstIndex<T(==)>(s: seq<T>, x: T): (i: nat)
    requires x in s
    ensures i < |s| && s[i] == x && forall j :: 0 <= j < i ==> s[j] != x
  {
    if s[0] == x then 0 else FirstIndex(s[1..], x) + 1
  }

  lemma FirstIndexIs<T>(s: seq<T>, x: T, i: nat)
    requires i < |s| && s[i] == x && forall j :: 0 <= j < i ==> s[j] != x
    ensures FirstIndex(s, x) == i
  {
  }

  /** The elements stay the same, each once, in the order in which they first appeared. */
  lemma {:induction false} DedupeKeepsFirsts<T>(s: seq<T>)
    ensures forall x :: x in Dedupe(s) <==> x in s
    ensures forall i, j :: 0 <= i < j < |Dedupe(s)| ==> FirstIndex(s, Dedupe(s)[i]) < FirstIndex(s, Dedupe(s)[j])
  {
    if s != [] {
      var k := |s| - 1;
      var front := s[..k];
      DedupeKeepsFirsts(front);
      assert s == front + [s[k]];
      var d := Dedupe(front);
      forall x | x in front ensures FirstIndex(s, x) == FirstIndex(front, x) {
        FirstIndexIs(s, x, FirstIndex(front, x));
      }
      if s[k] !in front {
        FirstIndexIs(s, s[k], k);
      }
      forall i, j | 0 <= i < j < |Dedupe(s)|
        ensures FirstIndex(s, Dedupe(s)[i]) < FirstIndex(s, Dedupe(s)[j])
      {
        assert d[i] in Dedupe(front);
        if j < |d| {
          assert d[j] in Dedupe(front);
        }
      }
    }
  }

  lemma DedupeHasNoDuplicates<T>(s: seq<T>)
    ensures NoDuplicates(Dedupe(s))
  {
    DedupeKeepsFirsts(s);
  }

  lemma {:induction false} DedupeIsIdentity<T>(s: seq<T>)
    requires NoDuplicates(s)
    ensures Dedupe(s) == s
  {
    if s != [] {
      var k := |s| - 1;
      DedupeIsIdentity(s[..k]);
      assert s == s[..k] + [s[k]];
    }
  }

  lemma DedupeIsIdempotent<T>(s: seq<T>)
    ensures Dedupe(Dedupe(s)) == Dedupe(s)
  {
    DedupeHasNoDuplicates(s);
    DedupeIsIdentity(Dedupe(s));
  }

  /** `retain` with a set of the hints already seen. */
  method RetainFirsts(hints: seq<QueryHint>) returns (kept: seq<QueryHint>)
    ensures kept == Dedupe(hints)
  {
    var seen: set<QueryHint> := {};
    kept := [];
    for i := 0 to |hints|
      invariant seen == set h | h in hints[..i]
      invariant kept == Dedupe(hints[..i])
    {
      assert hints[..i + 1] == hints[..i] + [hints[i]];
      assert hints[..i + 1][..i] == hints[..i];
      if hints[i] !in seen {
        seen := seen + {hints[i]};
        kept := kept + [hints[i]];
      }
    }
    assert hints[..|hints|] == hints;
  }

  method DedupeRoutedHints(routed: map<Str, seq<QueryHint>>) returns (out: map<Str, seq<QueryHint>>)
    ensures out.Keys == routed.Keys
    ensures forall d :: d in routed ==> out[d] == Dedupe(routed[d])
  {
    out := routed;
    var todo := routed.Keys;
    while todo != {}
      invariant todo <= routed.Keys && out.Keys == routed.Keys
      invariant forall d :: d in routed ==> out[d] == if d in todo then routed[d] else Dedupe(routed[d])
    {
      var d :| d in todo;
      var kept := RetainFirsts(out[d]);
      out := out[d := kept];
      todo := todo - {d};
    }
  }
}
