/** Which logs may be replayed, as a check that can be made on the log alone. */
module Replayability {
  import opened JsMaps
  import opened Absorption
  import opened SteadyDeltas
  import Deltas
  import Events
  import Fold
  import Replay
  import SteadyBlocks

  // ----- Finding a call -----

  /** Slot `j` holds a call with this id. */
  predicate Matches(slot: Option<Deltas.ToolCall>, call: Id) {
    slot.Some? && slot.value.id == call
  }

  lemma {:induction false} FindsFirst(calls: Deltas.Calls, call: Id) returns (j: nat)
    ensures forall k: nat :: k < j ==> !Matches(Deltas.At(calls, k), call)
    ensures j < |calls| ==> Matches(calls[j], call) && Fold.FindCall(calls, call) == calls[j]
    ensures j >= |calls| ==> Fold.FindCall(calls, call).None?
    decreases calls
  {
    j := 0;
    if calls != [] && !Matches(calls[0], call) {
      var rest := FindsFirst(calls[1..], call);
      j := rest + 1;
      forall k: nat | k < j ensures !Matches(Deltas.At(calls, k), call) {
        if k > 0 {
          assert Deltas.At(calls, k) == Deltas.At(calls[1..], k - 1);
        }
      }
    }
  }

  function ArgsIn(calls: Deltas.Calls, call: Id): Option<string> {
    match Fold.FindCall(calls, call)
    case Some(found) => Some(found.args)
    case None => None
  }

  /** The first call with the id is at `j`, or there is none. */
  lemma FoundFirst(calls: Deltas.Calls, call: Id, j: nat)
    requires Matches(Deltas.At(calls, j), call) && forall k: nat :: k < j ==> !Matches(Deltas.At(calls, k), call)
    ensures ArgsIn(calls, call) == Some(Deltas.At(calls, j).value.args)
  {
    var first := FindsFirst(calls, call);
    assert first < |calls| ==> Deltas.At(calls, first) == calls[first];
  }

  lemma {:induction false} NoneFound(calls: Deltas.Calls, call: Id)
    requires forall j: nat :: !Matches(Deltas.At(calls, j), call)
    ensures ArgsIn(calls, call).None?
    decreases calls
  {
    if calls != [] {
      assert !Matches(Deltas.At(calls, 0), call);
      forall j: nat ensures !Matches(Deltas.At(calls[1..], j), call) {
        assert Deltas.At(calls[1..], j) == Deltas.At(calls, j + 1);
      }
      NoneFound(calls[1..], call);
    }
  }

  // ----- What a question reads -----

  /** The deltas name slot `j` this call. */
  predicate NamedCall(fs: seq<Deltas.Fragment>, j: nat, call: Id) {
    Ids(fs, j) != [] && Latest("", Ids(fs, j)) == call
  }

  /** Slot `j` after the first deltas is named by them, or none of the deltas names it; and when the
      call asked for has no id, no later delta opens the slot. */
  predicate SlotSettled(fs: seq<Deltas.Fragment>, before: seq<Deltas.Fragment>, j: nat, call: Id) {
    || Ids(before, j) != []
    || (Ids(fs, j) == [] && (call == "" && Hits(fs, j) ==> Hits(before, j)))
  }

  /** Every slot is settled up to the first that the deltas before the question name the call. */
  predicate ReadSettled(fs: seq<Deltas.Fragment>, before: seq<Deltas.Fragment>, call: Id) {
    forall k :: 0 <= k < |fs| ==>
      SlotSettled(fs, before, fs[k].index, call) || exists j :: 0 <= j <= fs[k].index && NamedCall(before, j, call)
  }

  lemma Unhit(fs: seq<Deltas.Fragment>, before: seq<Deltas.Fragment>, j: nat, call: Id)
    requires ReadSettled(fs, before, call) && forall i: nat :: i <= j ==> !NamedCall(before, i, call)
    ensures SlotSettled(fs, before, j, call)
  {
    if Hits(fs, j) {
      var k :| 0 <= k < |fs| && fs[k].index == j;
      assert SlotSettled(fs, before, fs[k].index, call);
    } else {
      NoHits(fs, j);
    }
  }

  /** A slot read once and after a replay. */
  lemma SlotRead(slot: Option<Deltas.ToolCall>, first: seq<Deltas.Fragment>, before: seq<Deltas.Fragment>,
                 fs: seq<Deltas.Fragment>, j: nat, call: Id)
    requires first <= fs && before <= fs
    requires NamedCall(before, j, call) || SlotSettled(fs, before, j, call)
    ensures var once, twice := Slot(slot, before, j), Slot(Slot(slot, first, j), before, j);
      && (Matches(once, call) <==> Matches(twice, call))
      && (Matches(once, call) ==> once.value.args == twice.value.args)
    ensures NamedCall(before, j, call) ==> Matches(Slot(slot, before, j), call)
  {
    PrefixValues(first, fs, j);
    PrefixValues(before, fs, j);
    if !Hits(before, j) {
      NoHits(before, j);
    }
  }

  lemma CallsRead(calls: Deltas.Calls, first: seq<Deltas.Fragment>, before: seq<Deltas.Fragment>,
                  fs: seq<Deltas.Fragment>, j: nat, call: Id)
    requires first <= fs && before <= fs && InertFragments(fs)
    requires NamedCall(before, j, call) || SlotSettled(fs, before, j, call)
    ensures var once, twice := Deltas.At(Deltas.RuntimeCalls(calls, before), j),
                               Deltas.At(Deltas.RuntimeCalls(Deltas.RuntimeCalls(calls, first), before), j);
      && (Matches(once, call) <==> Matches(twice, call))
      && (Matches(once, call) ==> once.value.args == twice.value.args)
      && (NamedCall(before, j, call) ==> Matches(once, call))
  {
    SlotRun(calls, first, j);
    SlotRun(calls, before, j);
    SlotRun(Deltas.RuntimeCalls(calls, first), before, j);
    SlotRead(Deltas.At(calls, j), first, before, fs, j, call);
  }

  /** Up to the first call with the id, both readings match at the same slots. */
  lemma SameUpTo(calls: Deltas.Calls, first: seq<Deltas.Fragment>, before: seq<Deltas.Fragment>,
                 fs: seq<Deltas.Fragment>, j: nat, call: Id)
    requires first <= fs && before <= fs && InertFragments(fs) && ReadSettled(fs, before, call)
    requires forall i: nat :: i < j ==> !Matches(Deltas.At(Deltas.RuntimeCalls(calls, before), i), call)
    ensures var once, twice := Deltas.At(Deltas.RuntimeCalls(calls, before), j),
                               Deltas.At(Deltas.RuntimeCalls(Deltas.RuntimeCalls(calls, first), before), j);
      && (Matches(once, call) <==> Matches(twice, call))
      && (Matches(once, call) ==> once.value.args == twice.value.args)
  {
    forall i: nat | i < j ensures !NamedCall(before, i, call) {
      if NamedCall(before, i, call) {
        CallsRead(calls, first, before, fs, i, call);
      }
    }
    if !NamedCall(before, j, call) {
      Unhit(fs, before, j, call);
    }
    CallsRead(calls, first, before, fs, j, call);
  }

  lemma SettledReads(calls: Deltas.Calls, first: seq<Deltas.Fragment>, before: seq<Deltas.Fragment>,
                     fs: seq<Deltas.Fragment>, call: Id)
    requires first <= fs && before <= fs && InertFragments(fs) && ReadSettled(fs, before, call)
    ensures ArgsIn(Deltas.RuntimeCalls(Deltas.RuntimeCalls(calls, first), before), call) == ArgsIn(Deltas.RuntimeCalls(calls, before), call)
  {
    var once, twice := Deltas.RuntimeCalls(calls, before), Deltas.RuntimeCalls(Deltas.RuntimeCalls(calls, first), before);
    var j := FindsFirst(once, call);
    var i := FindsFirst(twice, call);
    forall k: nat | k <= j ensures Matches(Deltas.At(once, k), call) <==> Matches(Deltas.At(twice, k), call) {
      SameUpTo(calls, first, before, fs, k, call);
    }
    if j < |once| {
      SameUpTo(calls, first, before, fs, j, call);
      FoundFirst(twice, call, j);
    } else if i < |twice| {
      SameUpTo(calls, first, before, fs, i, call);
    }
  }

  // ----- Only settled reads -----

  /** Some other id. */
  function Other(call: Id): (id: Id)
    ensures id != call
  {
    call + "x"
  }

  /** Slots `0` to `j` are held, and the arguments tell slot `j` from the rest. */
  function HeldTo(j: nat, id: Id, call: Id): Deltas.Calls {
    seq(j, _ => Some(Deltas.ToolCall(Other(call), "", "y", None))) + [Some(Deltas.ToolCall(id, "", "z", None))]
  }

  lemma HeldAfter(j: nat, id: Id, call: Id, first: seq<Deltas.Fragment>, before: seq<Deltas.Fragment>, i: nat)
    requires InertFragments(first) && InertFragments(before)
    ensures var held := HeldTo(j, id, call);
      var slot := Deltas.At(Deltas.RuntimeCalls(Deltas.RuntimeCalls(held, first), before), i);
      && (i <= j ==> slot.Some? && slot.value.id == Latest(Latest(held[i].value.id, Ids(first, i)), Ids(before, i)))
      && (slot.Some? ==> slot.value.args == if i < j then "y" else if i == j then "z" else "")
  {
    var held := HeldTo(j, id, call);
    SlotRun(held, first, i);
    SlotRun(Deltas.RuntimeCalls(held, first), before, i);
    if !Hits(first, i) {
      NoHits(first, i);
    }
    if !Hits(before, i) {
      NoHits(before, i);
    }
  }

  lemma HeldOnce(j: nat, id: Id, call: Id, before: seq<Deltas.Fragment>, i: nat)
    requires InertFragments(before)
    ensures var held := HeldTo(j, id, call);
      var slot := Deltas.At(Deltas.RuntimeCalls(held, before), i);
      && (i <= j ==> slot.Some? && slot.value.id == Latest(held[i].value.id, Ids(before, i)))
      && (slot.Some? ==> slot.value.args == if i < j then "y" else if i == j then "z" else "")
  {
    HeldAfter(j, id, call, [], before, i);
  }

  /** A slot that a later delta names: a replay finds the new name at once. */
  lemma NamedLater(fs: seq<Deltas.Fragment>, before: seq<Deltas.Fragment>, j: nat,
                   call: Id) returns (calls: Deltas.Calls)
    requires InertFragments(fs) && InertFragments(before)
    requires Ids(before, j) == [] && Ids(fs, j) != [] && forall i: nat :: i <= j ==> !NamedCall(before, i, call)
    ensures ArgsIn(Deltas.RuntimeCalls(Deltas.RuntimeCalls(calls, fs), before), call) != ArgsIn(Deltas.RuntimeCalls(calls, before), call)
  {
    var id := if Latest("", Ids(fs, j)) == call then Other(call) else call;
    calls := HeldTo(j, id, call);
    var once, twice := Deltas.RuntimeCalls(calls, before), Deltas.RuntimeCalls(Deltas.RuntimeCalls(calls, fs), before);
    var a := FindsFirst(once, call);
    var b := FindsFirst(twice, call);
    HeldOnce(j, id, call, before, a);
    HeldAfter(j, id, call, fs, before, b);
    HeldOnce(j, id, call, before, j);
    HeldAfter(j, id, call, fs, before, j);
    forall i: nat | i < j ensures !Matches(Deltas.At(once, i), call) {
      HeldOnce(j, id, call, before, i);
      assert !NamedCall(before, i, call);
    }
    assert a < |once| ==> Deltas.At(once, a) == once[a];
    assert b < |twice| ==> Deltas.At(twice, b) == twice[b];
  }

  /** All slots but slot `j` hold a named call. */
  function AllBut(j: nat, n: nat): Deltas.Calls {
    seq(j, _ => Some(Deltas.ToolCall("x", "", "", None))) + [None] + seq(n, _ => Some(Deltas.ToolCall("x", "", "", None)))
  }

  lemma {:induction false} IdsNamed(fs: seq<Deltas.Fragment>, i: nat)
    ensures forall k :: 0 <= k < |Ids(fs, i)| ==> Ids(fs, i)[k] != ""
    decreases fs
  {
    if fs != [] {
      IdsNamed(fs[..|fs| - 1], i);
    }
  }

  /** A slot that a later delta opens without a name: only a replay finds a call without an id. */
  lemma OpenedLater(fs: seq<Deltas.Fragment>, before: seq<Deltas.Fragment>, j: nat) returns (calls: Deltas.Calls)
    requires InertFragments(fs) && before <= fs && Ids(fs, j) == [] && Hits(fs, j) && !Hits(before, j)
    ensures ArgsIn(Deltas.RuntimeCalls(Deltas.RuntimeCalls(calls, fs), before), "") != ArgsIn(Deltas.RuntimeCalls(calls, before), "")
  {
    calls := AllBut(j, Bound(fs));
    var once, twice := Deltas.RuntimeCalls(calls, before), Deltas.RuntimeCalls(Deltas.RuntimeCalls(calls, fs), before);
    forall i: nat ensures !Matches(Deltas.At(once, i), "") {
      SlotRun(calls, before, i);
      IdsNamed(before, i);
      PrefixValues(before, fs, i);
    }
    NoneFound(once, "");
    SlotRun(calls, fs, j);
    SlotRun(Deltas.RuntimeCalls(calls, fs), before, j);
    NoHits(before, j);
    assert Matches(Deltas.At(twice, j), "");
    var b := FindsFirst(twice, "");
  }

  lemma CallsOfRun(m: Deltas.Message, ds: seq<Deltas.Delta>)
    requires AllInert(ds)
    ensures Deltas.CallList(MergeAll(m, ds)) == Deltas.RuntimeCalls(Deltas.CallList(m), FragmentsOf(ds))
  {
    CallsRun(m, ds);
    if !HasCalls(ds) {
      NoFragments(ds);
    }
  }

  lemma ArgsTwice(m: Deltas.Message, first: seq<Deltas.Delta>, before: seq<Deltas.Delta>, call: Id)
    requires AllInert(first) && AllInert(before)
    ensures ArgsOf(MergeAll(MergeAll(m, first), before), call)
      == ArgsIn(Deltas.RuntimeCalls(Deltas.RuntimeCalls(Deltas.CallList(m), FragmentsOf(first)), FragmentsOf(before)), call)
    ensures ArgsOf(MergeAll(m, before), call) == ArgsIn(Deltas.RuntimeCalls(Deltas.CallList(m), FragmentsOf(before)), call)
  {
    CallsOfRun(m, first);
    CallsOfRun(MergeAll(m, first), before);
    CallsOfRun(m, before);
  }

  lemma UnsettledReads(fs: seq<Deltas.Fragment>, before: seq<Deltas.Fragment>, call: Id) returns (calls: Deltas.Calls)
    requires before <= fs && InertFragments(fs) && !ReadSettled(fs, before, call)
    ensures ArgsIn(Deltas.RuntimeCalls(Deltas.RuntimeCalls(calls, fs), before), call) != ArgsIn(Deltas.RuntimeCalls(calls, before), call)
  {
    var k :| 0 <= k < |fs| && !SlotSettled(fs, before, fs[k].index, call)
      && !exists j :: 0 <= j <= fs[k].index && NamedCall(before, j, call);
    var j := fs[k].index;
    if Ids(fs, j) != [] {
      calls := NamedLater(fs, before, j, call);
    } else {
      calls := OpenedLater(fs, before, j);
    }
  }

  /** A question reads the same in every replay exactly when its slots are settled. */
  lemma ReadsExactly(ds: seq<Deltas.Delta>, n: nat, call: Id)
    requires n <= |ds| && AllInert(ds)
    ensures SteadyRead(ds, n, call) <==> ReadSettled(FragmentsOf(ds), FragmentsOf(ds[..n]), call)
  {
    var fs, before := FragmentsOf(ds), FragmentsOf(ds[..n]);
    FragmentsInert(ds);
    PrefixWrites(ds[..n], ds);
    assert ds[..|ds|] == ds;
    if ReadSettled(fs, before, call) {
      forall x: Deltas.Message, k: nat | k <= |ds|
        ensures ArgsOf(MergeAll(MergeAll(x, ds[..k]), ds[..n]), call) == ArgsOf(MergeAll(x, ds[..n]), call)
      {
        PrefixWrites(ds[..k], ds);
        ArgsTwice(x, ds[..k], ds[..n], call);
        SettledReads(Deltas.CallList(x), FragmentsOf(ds[..k]), before, fs, call);
      }
    } else {
      var calls := UnsettledReads(fs, before, call);
      var x := Deltas.Message(Deltas.Absent, None, None, Some(calls), None, None);
      ArgsTwice(x, ds, ds[..n], call);
      assert ArgsOf(MergeAll(MergeAll(x, ds[..|ds|]), ds[..n]), call) != ArgsOf(MergeAll(x, ds[..n]), call);
    }
  }

  // ----- The check -----

  /** The deltas of every message that the log does not store may be merged again. */
  predicate DeltasSettled(route: Fold.Route, log: seq<Events.Event>) {
    forall i :: 0 <= i < |log| && log[i].body.ModelMessageDelta? && !StoredIn(route, log, log[i].id) ==>
      var ds := DeltasFor(log, log[i].id);
      AllInert(ds) && SteadyBlocks.Settled(BlocksOf(ds))
  }

  /** What the question asked at position `i` reads is stored by then, or never stored and settled. */
  predicate QuestionSettled(route: Fold.Route, log: seq<Events.Event>, i: nat, r: Events.Ref)
    requires i < |log|
  {
    || r.source == log[i].id
    || StoredIn(route, log[..i], r.source)
    || (!StoredIn(route, log, r.source)
        && ReadSettled(FragmentsOf(DeltasFor(log, r.source)), FragmentsOf(DeltasFor(log[..i], r.source)), r.id))
  }

  predicate QuestionsSettled(route: Fold.Route, log: seq<Events.Event>) {
    forall i: nat :: i < |log| && log[i].body.ResponseRequired? ==>
      forall call | call in Fold.RefIds(log[i].body.questions) ::
        NoneWrites(log, i + 1, call) ==> QuestionSettled(route, log, i, LastRef(log[i].body.questions, call))
  }

  lemma DeltasExactly(route: Fold.Route, log: seq<Events.Event>)
    ensures DeltasSettled(route, log) <==> forall id :: StoredIn(route, log, id) || Steady(DeltasFor(log, id))
  {
    if DeltasSettled(route, log) {
      forall id ensures StoredIn(route, log, id) || Steady(DeltasFor(log, id)) {
        SteadyExactly(DeltasFor(log, id));
        if i :| 0 <= i < |log| && log[i].body.ModelMessageDelta? && log[i].id == id {
        } else {
          NoDeltas(route, log, id);
        }
      }
    }
    forall i | 0 <= i < |log|
      ensures Steady(DeltasFor(log, log[i].id)) <==>
        AllInert(DeltasFor(log, log[i].id)) && SteadyBlocks.Settled(BlocksOf(DeltasFor(log, log[i].id)))
    {
      SteadyExactly(DeltasFor(log, log[i].id));
    }
  }

  lemma QuestionExactly(route: Fold.Route, log: seq<Events.Event>, i: nat, r: Events.Ref)
    requires i < |log| && (StoredIn(route, log, r.source) || Steady(DeltasFor(log, r.source)))
    ensures ReadsAlike(route, log, i, r) <==> QuestionSettled(route, log, i, r)
  {
    if !StoredIn(route, log, r.source) {
      var ds, before := DeltasFor(log, r.source), DeltasFor(log[..i], r.source);
      SteadyExactly(ds);
      PrefixDeltas(log[..i], log, r.source);
      assert before == ds[..|before|];
      ReadsExactly(ds, |before|, r.id);
    }
  }

  /** A thread's log may be replayed on every prefix of itself exactly when the check on its deltas
      and questions succeeds. */
  lemma AbsorbingExactly(route: Fold.Route, log: seq<Events.Event>)
    ensures Absorbing(route, log) <==> DeltasSettled(route, log) && QuestionsSettled(route, log)
  {
    DeltasExactly(route, log);
    if DeltasSettled(route, log) {
      forall i: nat, call | i < |log|
        ensures ReadsAlikeWhenLast(route, log, i, call) <==>
          (Fold.Asks(log[i], call) && NoneWrites(log, i + 1, call) ==> QuestionSettled(route, log, i, LastRef(log[i].body.questions, call)))
      {
        if Fold.Asks(log[i], call) {
          QuestionExactly(route, log, i, LastRef(log[i].body.questions, call));
        }
      }
    }
    if Absorbing(route, log) {
      forall i: nat, call | i < |log| && Fold.Asks(log[i], call) && NoneWrites(log, i + 1, call)
        ensures QuestionSettled(route, log, i, LastRef(log[i].body.questions, call))
      {
        assert ReadsAlikeWhenLast(route, log, i, call);
      }
    }
  }

  lemma {:induction false} OffThread(route: Fold.Route, log: seq<Events.Event>, t: Id)
    requires t !in Replay.ThreadsOf(route, log)
    ensures Replay.OnThread(route, log, t) == []
    decreases log
  {
    if log != [] {
      var front, e := log[..|log| - 1], log[|log| - 1];
      forall k | 0 <= k < |Replay.ThreadsOf(route, front)| ensures Replay.ThreadsOf(route, front)[k] != t {
        assert Replay.ThreadsOf(route, log)[k] == Replay.ThreadsOf(route, front)[k];
      }
      assert Fold.Skipped(route, e) || Replay.ThreadsOf(route, log)[|Replay.ThreadsOf(route, front)|] == e.thread.value;
      OffThread(route, front, t);
    }
  }

  /** The check on every thread that the log reaches. */
  predicate ReplayCheck(route: Fold.Route, log: seq<Events.Event>) {
    forall k :: 0 <= k < |Replay.ThreadsOf(route, log)| ==>
      var part := Replay.OnThread(route, log, Replay.ThreadsOf(route, log)[k]);
      DeltasSettled(route, part) && QuestionsSettled(route, part)
  }

  /** A log may be ingested again, onto every fold and after every prefix of itself, exactly when the
      check on the log succeeds. */
  lemma ReplayExactly(route: Fold.Route, log: seq<Events.Event>)
    ensures AlwaysReplayed(route, log) <==> ReplayCheck(route, log)
  {
    ReplayAbsorbed(route, log);
    forall t ensures Absorbing(route, Replay.OnThread(route, log, t)) <==>
      DeltasSettled(route, Replay.OnThread(route, log, t)) && QuestionsSettled(route, Replay.OnThread(route, log, t))
    {
      AbsorbingExactly(route, Replay.OnThread(route, log, t));
    }
    if ReplayCheck(route, log) {
      forall t ensures Absorbing(route, Replay.OnThread(route, log, t)) {
        if t in Replay.ThreadsOf(route, log) {
          var k :| 0 <= k < |Replay.ThreadsOf(route, log)| && Replay.ThreadsOf(route, log)[k] == t;
        } else {
          OffThread(route, log, t);
        }
      }
    }
  }
}
