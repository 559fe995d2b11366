/** Records that point at an earlier record: walks along the links, the closure of
    a set of records, and the grow-until-stable loop that computes it. */
module Lineage {
  import opened Basics

  /** For each record, the record it follows. */
  type Links = map<Id, Option<Id>>

  /** A walk from a start record, each record following the one before. */
  ghost predicate IsWalk(links: Links, start: set<Id>, p: seq<Id>) {
    p != [] && p[0] in start
    && forall i :: 1 <= i < |p| ==> p[i] in links && links[p[i]] == Some(p[i - 1])
  }

  ghost predicate Follows(links: Links, start: set<Id>, id: Id) {
    exists p :: IsWalk(links, start, p) && p[|p| - 1] == id
  }

  /** The start records and everything that follows them, directly or not. */
  ghost function Closure(links: Links, start: set<Id>): set<Id> {
    set id | id in start + links.Keys && Follows(links, start, id)
  }

  ghost predicate IsClosed(links: Links, ids: set<Id>) {
    forall x :: x in links && links[x].Some? && links[x].value in ids ==> x in ids
  }

  lemma StartFollows(links: Links, start: set<Id>)
    ensures start <= Closure(links, start)
  {
    forall x | x in start ensures x in Closure(links, start) {
      assert IsWalk(links, start, [x]);
    }
  }

  lemma NextFollows(links: Links, start: set<Id>, x: Id)
    requires x in links && links[x].Some? && links[x].value in Closure(links, start)
    ensures x in Closure(links, start)
  {
    var p :| IsWalk(links, start, p) && p[|p| - 1] == links[x].value;
    assert IsWalk(links, start, p + [x]);
  }

  lemma {:induction false} WalkStaysInside(links: Links, start: set<Id>, ids: set<Id>, p: seq<Id>)
    requires start <= ids && IsClosed(links, ids) && IsWalk(links, start, p)
    ensures p[|p| - 1] in ids
    decreases |p|
  {
    if |p| > 1 {
      var q := p[..|p| - 1];
      assert IsWalk(links, start, q);
      WalkStaysInside(links, start, ids, q);
    }
  }

  /** The closure is the least closed set that contains the start. */
  lemma ClosureIsLeast(links: Links, start: set<Id>, ids: set<Id>)
    requires start <= ids && IsClosed(links, ids)
    ensures Closure(links, start) <= ids
  {
    forall x | x in Closure(links, start) ensures x in ids {
      var p :| IsWalk(links, start, p) && p[|p| - 1] == x;
      WalkStaysInside(links, start, ids, p);
    }
  }

  /** Passes over the records until a pass adds nothing. Additions are visible
      within the pass that makes them. */
  method GrowUntilStable(links: Links, order: seq<Id>, start: set<Id>) returns (all: set<Id>, added: seq<Id>)
    requires forall x :: x in order <==> x in links
    ensures all == Closure(links, start) && start <= all
    ensures NoRepeats(added) && Elements(added) == all - start
  {
    hide Closure, Follows;
    StartFollows(links, start);
    all, added := start, [];
    var grown := true;
    while grown
      invariant start <= all <= Closure(links, start)
      invariant NoRepeats(added) && Elements(added) == all - start
      invariant all <= start + links.Keys
      invariant !grown ==> IsClosed(links, all)
      decreases (start + links.Keys) - all, grown
    {
      grown := false;
      ghost var before := all;
      for i := 0 to |order|
        invariant start <= before <= all <= Closure(links, start)
        invariant NoRepeats(added) && Elements(added) == all - start
        invariant all <= start + links.Keys
        invariant grown <==> all != before
        invariant !grown ==> forall x :: x in order[..i] && links[x].Some? && links[x].value in all ==> x in all
      {
        var x := order[i];
        assert x in links;
        if links[x].Some? && links[x].value in all && x !in all {
          NextFollows(links, start, x);
          AppendNew(added, x);
          all := all + {x};
          added := added + [x];
          grown := true;
        }
        assert order[..i + 1] == order[..i] + [x];
      }
      if !grown {
        assert order[..|order|] == order;
      } else {
        assert before < all;
      }
    }
    ClosureIsLeast(links, start, all);
  }
}
