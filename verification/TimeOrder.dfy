/** Events in emission order: a stable sort by time of the order they arrived in. */
module TimeOrder {
  import opened JsMaps
  import Events

  datatype Entry = Entry(id: Id, event: Events.Event)

  ghost predicate Sorted(s: seq<Entry>) {
    forall i, j :: 0 <= i < j < |s| ==> s[i].event.at <= s[j].event.at
  }

  /** Puts `e` behind everything that is not later. */
  function Insert(s: seq<Entry>, e: Entry): (r: seq<Entry>)
    ensures |r| == |s| + 1 && multiset(r) == multiset(s) + multiset{e}
  {
    if s == [] || s[|s| - 1].event.at <= e.event.at then s + [e]
    else
      assert s == s[..|s| - 1] + [s[|s| - 1]];
      Insert(s[..|s| - 1], e) + [s[|s| - 1]]
  }

  function InTimeOrder(s: seq<Entry>): (r: seq<Entry>)
    ensures multiset(r) == multiset(s)
  {
    if s == [] then []
    else
      assert s == s[..|s| - 1] + [s[|s| - 1]];
      Insert(InTimeOrder(s[..|s| - 1]), s[|s| - 1])
  }

  lemma {:induction false} InsertSorted(s: seq<Entry>, e: Entry)
    requires Sorted(s)
    ensures Sorted(Insert(s, e))
    ensures forall i :: 0 <= i < |Insert(s, e)| ==> Insert(s, e)[i] == e || Insert(s, e)[i] in s
    decreases s
  {
    if s != [] && s[|s| - 1].event.at > e.event.at {
      InsertSorted(s[..|s| - 1], e);
    }
  }

  lemma {:induction false} TimeOrderSorted(s: seq<Entry>)
    ensures Sorted(InTimeOrder(s))
    decreases s
  {
    if s != [] {
      TimeOrderSorted(s[..|s| - 1]);
      InsertSorted(InTimeOrder(s[..|s| - 1]), s[|s| - 1]);
    }
  }

  // ----- Dropping events -----

  function Filter(keep: Events.Event -> bool, s: seq<Entry>): seq<Entry> {
    if s == [] then []
    else Filter(keep, s[..|s| - 1]) + if keep(s[|s| - 1].event) then [s[|s| - 1]] else []
  }

  lemma FilterSnoc(keep: Events.Event -> bool, s: seq<Entry>, e: Entry)
    ensures Filter(keep, s + [e]) == Filter(keep, s) + if keep(e.event) then [e] else []
  {
    assert (s + [e])[..|s|] == s;
  }

  lemma {:induction false} FilterMembers(keep: Events.Event -> bool, s: seq<Entry>)
    ensures forall e :: e in Filter(keep, s) <==> e in s && keep(e.event)
    decreases s
  {
    if s != [] {
      FilterMembers(keep, s[..|s| - 1]);
      assert s == s[..|s| - 1] + [s[|s| - 1]];
    }
  }

  /** Everything at or before the end of `s` comes before a later event. */
  lemma {:induction false} InsertLast(s: seq<Entry>, e: Entry)
    requires forall i :: 0 <= i < |s| ==> s[i].event.at <= e.event.at
    ensures Insert(s, e) == s + [e]
  {
  }

  lemma InsertBehind(keep: Events.Event -> bool, s: seq<Entry>, e: Entry)
    requires forall i :: 0 <= i < |s| ==> s[i].event.at <= e.event.at
    ensures Filter(keep, Insert(s, e)) == if keep(e.event) then Insert(Filter(keep, s), e) else Filter(keep, s)
  {
    InsertLast(s, e);
    FilterSnoc(keep, s, e);
    FilterMembers(keep, s);
    forall i | 0 <= i < |Filter(keep, s)| ensures Filter(keep, s)[i].event.at <= e.event.at {
      assert Filter(keep, s)[i] in s;
    }
    InsertLast(Filter(keep, s), e);
  }

  lemma InsertBefore(s: seq<Entry>, last: Entry, e: Entry)
    requires last.event.at > e.event.at
    ensures Insert(s + [last], e) == Insert(s, e) + [last]
  {
    assert (s + [last])[..|s|] == s;
  }

  lemma {:induction false} InsertFiltered(keep: Events.Event -> bool, s: seq<Entry>, e: Entry)
    requires Sorted(s)
    ensures Filter(keep, Insert(s, e)) == if keep(e.event) then Insert(Filter(keep, s), e) else Filter(keep, s)
    decreases s
  {
    if s == [] || s[|s| - 1].event.at <= e.event.at {
      InsertBehind(keep, s, e);
    } else {
      var front, last := s[..|s| - 1], s[|s| - 1];
      assert s == front + [last];
      InsertFiltered(keep, front, e);
      InsertBefore(front, last, e);
      FilterSnoc(keep, Insert(front, e), last);
      FilterSnoc(keep, front, last);
      if keep(last.event) {
        InsertBefore(Filter(keep, front), last, e);
      } else {
        assert Filter(keep, s) == Filter(keep, front);
      }
    }
  }

  lemma OrderSnoc(s: seq<Entry>, e: Entry)
    ensures InTimeOrder(s + [e]) == Insert(InTimeOrder(s), e)
  {
    assert (s + [e])[..|s|] == s;
  }

  /** Sorting commutes with dropping events. */
  lemma {:induction false} OrderCommutesWithDropping(keep: Events.Event -> bool, s: seq<Entry>)
    ensures Filter(keep, InTimeOrder(s)) == InTimeOrder(Filter(keep, s))
    decreases s
  {
    if s != [] {
      var front, last := s[..|s| - 1], s[|s| - 1];
      assert s == front + [last];
      OrderCommutesWithDropping(keep, front);
      TimeOrderSorted(front);
      InsertFiltered(keep, InTimeOrder(front), last);
      OrderSnoc(front, last);
      FilterSnoc(keep, front, last);
      if keep(last.event) {
        OrderSnoc(Filter(keep, front), last);
      } else {
        assert Filter(keep, s) == Filter(keep, front);
      }
    }
  }

  lemma {:induction false} SameTimeStays(s: seq<Entry>, at: int)
    requires forall i :: 0 <= i < |s| ==> s[i].event.at == at
    ensures InTimeOrder(s) == s
    decreases s
  {
    if s != [] {
      SameTimeStays(s[..|s| - 1], at);
      assert s == s[..|s| - 1] + [s[|s| - 1]];
    }
  }

  /** Events of the same time keep the order they arrived in. */
  lemma TiesKeepArrival(s: seq<Entry>, at: int)
    ensures Filter((e: Events.Event) => e.at == at, InTimeOrder(s)) == Filter((e: Events.Event) => e.at == at, s)
  {
    var same := (e: Events.Event) => e.at == at;
    OrderCommutesWithDropping(same, s);
    FilterMembers(same, s);
    forall i | 0 <= i < |Filter(same, s)| ensures Filter(same, s)[i].event.at == at {
      assert Filter(same, s)[i] in Filter(same, s);
    }
    SameTimeStays(Filter(same, s), at);
  }
}
