/** What a new turn's input adds to the thread contexts it inherits. */
module TurnContext {
  import opened JsMaps

  datatype Thread = Thread(context: seq<Id>, usage: Option<nat>, completion: Option<string>, capability: Option<string>)

  const NEW_THREAD := Thread([], None, None, None)

  datatype Snapshot = Snapshot(threads: map<Id, Thread>, mcpServers: Option<map<Id, string>>, sandbox: Option<Id>)

  /** One addition to one thread's context. A missing usage or completion leaves the old one. */
  datatype Append = Append(thread: Id, context: seq<Id>, usage: Option<nat>, completion: Option<string>)

  /** `capabilities` gives every thread's state, once. */
  datatype Delta = Delta(newThreads: seq<Id>, appends: seq<Append>, capabilities: seq<(Id, Option<string>)>)

  // ----- Applying appends -----

  function Extend(t: Thread, a: Append): Thread {
    t.(context := t.context + a.context, usage := a.usage.Or(t.usage), completion := a.completion.Or(t.completion))
  }

  /** `None` when an append names an unknown thread. */
  function ApplyContextAppends(threads: map<Id, Thread>, appends: seq<Append>): Option<map<Id, Thread>>
    decreases appends
  {
    if appends == [] then Some(threads)
    else
      var before := ApplyContextAppends(threads, appends[..|appends| - 1]);
      var a := appends[|appends| - 1];
      if before.None? || a.thread !in before.value then None
      else Some(before.value[a.thread := Extend(before.value[a.thread], a)])
  }

  /** All that a list of appends adds to thread `t`, as one append. */
  function Total(appends: seq<Append>, t: Id): Append {
    if appends == [] then Append(t, [], None, None)
    else
      var before := Total(appends[..|appends| - 1], t);
      var a := appends[|appends| - 1];
      if a.thread == t
      then Append(t, before.context + a.context, a.usage.Or(before.usage), a.completion.Or(before.completion))
      else before
  }

  function Named(appends: seq<Append>): seq<Id> {
    seq(|appends|, i requires 0 <= i < |appends| => appends[i].thread)
  }

  lemma ExtendTwice(t: Thread, a: Append, b: Append)
    ensures Extend(Extend(t, a), b)
      == Extend(t, Append(a.thread, a.context + b.context, b.usage.Or(a.usage), b.completion.Or(a.completion)))
  {
    assert (t.context + a.context) + b.context == t.context + (a.context + b.context);
  }

  /** Appends can be applied exactly when every thread they name is known, and then each thread
      gets the total of what is addressed to it. */
  lemma {:induction false} AppliesTotals(threads: map<Id, Thread>, appends: seq<Append>)
    ensures ApplyContextAppends(threads, appends).Some? <==> forall i :: 0 <= i < |appends| ==> appends[i].thread in threads
    ensures var after := ApplyContextAppends(threads, appends);
      after.Some? ==> after.value.Keys == threads.Keys && forall t | t in threads :: after.value[t] == Extend(threads[t], Total(appends, t))
    decreases appends
  {
    if appends == [] {
      forall t | t in threads ensures threads[t] == Extend(threads[t], Total(appends, t)) {
        assert threads[t].context + [] == threads[t].context;
      }
    } else {
      var front, a := appends[..|appends| - 1], appends[|appends| - 1];
      AppliesTotals(threads, front);
      assert forall i :: 0 <= i < |front| ==> front[i] == appends[i];
      var before := ApplyContextAppends(threads, front);
      if before.Some? && a.thread in threads {
        ExtendTwice(threads[a.thread], Total(front, a.thread), a);
      }
    }
  }

  // ----- Collecting appends per thread -----

  /** One total per thread, in the order the threads were first named. */
  ghost predicate Collected(c: JsMap<Id, Append>, events: seq<Append>) {
    && c.Valid() && c.keys == AddKeys([], Named(events))
    && forall t | t in c.vals :: c.vals[t] == Total(events, t)
  }

  function Merged(c: JsMap<Id, Append>, e: Append): Append {
    if c.Has(e.thread) then
      var a := c.vals[e.thread];
      a.(context := a.context + e.context, usage := e.usage.Or(a.usage), completion := e.completion.Or(a.completion))
    else Append(e.thread, e.context, e.usage, e.completion)
  }

  lemma TotalSnoc(events: seq<Append>, e: Append, t: Id)
    ensures Total(events + [e], t)
      == if e.thread == t
         then Append(t, Total(events, t).context + e.context, e.usage.Or(Total(events, t).usage), e.completion.Or(Total(events, t).completion))
         else Total(events, t)
  {
    assert (events + [e])[..|events|] == events;
  }

  lemma MergedIsTotal(c: JsMap<Id, Append>, events: seq<Append>, e: Append)
    requires Collected(c, events)
    ensures Merged(c, e) == Total(events + [e], e.thread)
  {
    TotalSnoc(events, e, e.thread);
    TotalsAreNamed(events);
    AddKeysMember([], Named(events), e.thread);
    if !c.Has(e.thread) {
      NothingYet(events, e.thread);
      assert [] + e.context == e.context;
    }
  }

  lemma CollectStep(c: JsMap<Id, Append>, events: seq<Append>, e: Append)
    requires Collected(c, events)
    ensures Collected(c.Set(e.thread, Merged(c, e)), events + [e])
  {
    MergedIsTotal(c, events, e);
    SetValid(c, e.thread, Merged(c, e));
    assert Named(events + [e]) == Named(events) + [e.thread];
    AddKeysSnoc([], Named(events), e.thread);
    forall t | t in c.vals && t != e.thread ensures c.vals[t] == Total(events + [e], t) {
      TotalSnoc(events, e, t);
    }
  }

  /** One append per thread, in the order the threads are first named. */
  method CollectContextAppends(events: seq<Append>) returns (appends: seq<Append>)
    ensures Named(appends) == AddKeys([], Named(events))
    ensures forall i :: 0 <= i < |appends| ==> appends[i] == Total(events, appends[i].thread)
  {
    var collected: JsMap<Id, Append> := JsMap([], map[]);
    for i := 0 to |events|
      invariant Collected(collected, events[..i])
    {
      var e := events[i];
      CollectStep(collected, events[..i], e);
      assert events[..i + 1] == events[..i] + [e];
      if collected.Has(e.thread) {
        var existing := collected.vals[e.thread];
        existing := existing.(context := existing.context + e.context);
        if e.usage.Some? {
          existing := existing.(usage := e.usage);
        }
        if e.completion.Some? {
          existing := existing.(completion := e.completion);
        }
        collected := collected.Set(e.thread, existing);
      } else {
        collected := collected.Set(e.thread, Append(e.thread, e.context, e.usage, e.completion));
      }
    }
    assert events[..|events|] == events;
    appends := seq(|collected.keys|, i requires 0 <= i < |collected.keys| => collected.vals[collected.keys[i]]);
    TotalsAreNamed(events);
    assert Named(appends) == collected.keys;
  }

  lemma {:induction false} NothingYet(appends: seq<Append>, t: Id)
    requires t !in Named(appends)
    ensures Total(appends, t) == Append(t, [], None, None)
    decreases appends
  {
    if appends != [] {
      var front := appends[..|appends| - 1];
      assert appends[|appends| - 1].thread == Named(appends)[|appends| - 1];
      forall i | 0 <= i < |front| ensures Named(front)[i] == Named(appends)[i] {}
      NothingYet(front, t);
    }
  }

  lemma {:induction false} TotalsAreNamed(appends: seq<Append>)
    ensures forall t :: Total(appends, t).thread == t
    decreases appends
  {
    if appends != [] {
      TotalsAreNamed(appends[..|appends| - 1]);
    }
  }

  /** A list that already holds one total per thread has those totals. */
  lemma {:induction false} TotalOfDistinct(appends: seq<Append>, i: int)
    requires 0 <= i < |appends| && Distinct(Named(appends))
    ensures Total(appends, appends[i].thread) == appends[i]
    decreases appends
  {
    var n := |appends| - 1;
    var front := appends[..n];
    assert forall j :: 0 <= j < n ==> Named(front)[j] == Named(appends)[j];
    if i < n {
      assert Named(appends)[i] != Named(appends)[n];
      TotalOfDistinct(front, i);
    } else {
      assert appends[n].thread !in Named(front) by {
        forall j | 0 <= j < n ensures Named(front)[j] != appends[n].thread {
          assert Named(appends)[j] != Named(appends)[n];
        }
      }
      NothingYet(front, appends[n].thread);
      assert [] + appends[n].context == appends[n].context;
    }
  }

  /** Sending the collected appends has the effect of sending the events one by one. */
  lemma CollectedMeansTheSame(threads: map<Id, Thread>, events: seq<Append>, appends: seq<Append>)
    requires Named(appends) == AddKeys([], Named(events))
    requires forall i :: 0 <= i < |appends| ==> appends[i] == Total(events, appends[i].thread)
    ensures ApplyContextAppends(threads, appends) == ApplyContextAppends(threads, events)
  {
    AppliesTotals(threads, events);
    AppliesTotals(threads, appends);
    AddKeysDistinct([], Named(events));
    forall t ensures Total(appends, t) == Total(events, t) {
      AddKeysMember([], Named(events), t);
      if t in Named(appends) {
        var i :| 0 <= i < |appends| && Named(appends)[i] == t;
        TotalOfDistinct(appends, i);
      } else {
        NothingYet(appends, t);
        NothingYet(events, t);
      }
    }
    SameNames(threads, events, appends);
    var one, all := ApplyContextAppends(threads, events), ApplyContextAppends(threads, appends);
    if one.Some? {
      assert one.value == all.value;
    }
  }

  lemma SameNames(threads: map<Id, Thread>, events: seq<Append>, appends: seq<Append>)
    requires Named(appends) == AddKeys([], Named(events))
    ensures (forall i :: 0 <= i < |appends| ==> appends[i].thread in threads)
      <==> (forall i :: 0 <= i < |events| ==> events[i].thread in threads)
  {
    forall t ensures t in Named(appends) <==> t in Named(events) {
      AddKeysMember([], Named(events), t);
    }
    forall i | 0 <= i < |events| ensures events[i].thread in Named(appends) {
      assert Named(events)[i] == events[i].thread;
    }
    forall i | 0 <= i < |appends| ensures appends[i].thread in Named(events) {
      assert Named(appends)[i] == appends[i].thread;
    }
    if forall i :: 0 <= i < |appends| ==> appends[i].thread in threads {
      forall i | 0 <= i < |events| ensures events[i].thread in threads {
        var j :| 0 <= j < |appends| && Named(appends)[j] == events[i].thread;
        assert appends[j].thread in threads;
      }
    }
    if forall i :: 0 <= i < |events| ==> events[i].thread in threads {
      forall i | 0 <= i < |appends| ensures appends[i].thread in threads {
        var j :| 0 <= j < |events| && Named(events)[j] == appends[i].thread;
        assert events[j].thread in threads;
      }
    }
  }

  // ----- The snapshot a turn starts from -----

  predicate DeltaFits(known: set<Id>, d: Delta) {
    var threads := known + set i | 0 <= i < |d.newThreads| :: d.newThreads[i];
    && (forall i :: 0 <= i < |d.newThreads| ==> d.newThreads[i] !in known)
    && (forall i, j :: 0 <= i < j < |d.newThreads| ==> d.newThreads[i] != d.newThreads[j])
    && (forall i :: 0 <= i < |d.appends| ==> d.appends[i].thread in threads)
    && (forall i :: 0 <= i < |d.capabilities| ==> d.capabilities[i].0 in threads)
    && (forall i, j :: 0 <= i < j < |d.capabilities| ==> d.capabilities[i].0 != d.capabilities[j].0)
    && (forall t | t in threads :: exists i :: 0 <= i < |d.capabilities| && d.capabilities[i].0 == t)
  }

  function WithNew(threads: map<Id, Thread>, added: seq<Id>): map<Id, Thread>
    decreases added
  {
    if added == [] then threads else WithNew(threads, added[..|added| - 1])[added[|added| - 1] := NEW_THREAD]
  }

  function WithCapabilities(threads: map<Id, Thread>, states: seq<(Id, Option<string>)>): map<Id, Thread>
    decreases states
  {
    if states == [] then threads
    else
      var before := WithCapabilities(threads, states[..|states| - 1]);
      var (t, capability) := states[|states| - 1];
      if t in before then before[t := before[t].(capability := capability)] else before
  }

  /** `None` when the delta does not fit what it extends. */
  function BuildSnapshot(previous: Option<Snapshot>, d: Delta): Option<Snapshot> {
    var threads := ThreadsOf(previous);
    if !DeltaFits(threads.Keys, d) then None
    else
      match ApplyContextAppends(WithNew(threads, d.newThreads), d.appends)
      case None => None
      case Some(extended) =>
        Some(Snapshot(WithCapabilities(extended, d.capabilities),
                      if previous.Some? then previous.value.mcpServers else None,
                      if previous.Some? then previous.value.sandbox else None))
  }

  lemma {:induction false} WithNewAt(threads: map<Id, Thread>, added: seq<Id>, t: Id)
    ensures t in WithNew(threads, added) <==> t in threads || t in added
    ensures t in WithNew(threads, added) ==> WithNew(threads, added)[t] == if t in added then NEW_THREAD else threads[t]
    decreases added
  {
    if added != [] {
      WithNewAt(threads, added[..|added| - 1], t);
      assert added == added[..|added| - 1] + [added[|added| - 1]];
    }
  }

  predicate LastFor(states: seq<(Id, Option<string>)>, i: int)
    requires 0 <= i < |states|
  {
    forall j :: i < j < |states| ==> states[j].0 != states[i].0
  }

  lemma {:induction false} CapabilitiesOnly(threads: map<Id, Thread>, states: seq<(Id, Option<string>)>, t: Id)
    ensures WithCapabilities(threads, states).Keys == threads.Keys
    ensures t in threads ==> WithCapabilities(threads, states)[t].(capability := None) == threads[t].(capability := None)
    decreases states
  {
    if states != [] {
      CapabilitiesOnly(threads, states[..|states| - 1], t);
    }
  }

  lemma {:induction false} CapabilitySet(threads: map<Id, Thread>, states: seq<(Id, Option<string>)>, i: int)
    requires 0 <= i < |states| && LastFor(states, i) && states[i].0 in threads
    ensures states[i].0 in WithCapabilities(threads, states)
    ensures WithCapabilities(threads, states)[states[i].0].capability == states[i].1
    decreases states
  {
    CapabilitiesOnly(threads, states, states[i].0);
    CapabilitiesOnly(threads, states[..|states| - 1], states[i].0);
    if i < |states| - 1 {
      CapabilitySet(threads, states[..|states| - 1], i);
    }
  }

  function Inherited(threads: map<Id, Thread>, t: Id): Thread {
    if t in threads then threads[t] else NEW_THREAD
  }

  lemma GrownApplies(threads: map<Id, Thread>, d: Delta)
    requires DeltaFits(threads.Keys, d)
    ensures var after := ApplyContextAppends(WithNew(threads, d.newThreads), d.appends);
      && after.Some?
      && (forall t :: t in after.value <==> t in threads || t in d.newThreads)
      && (forall t | t in after.value :: after.value[t] == Extend(Inherited(threads, t), Total(d.appends, t)))
  {
    var grown := WithNew(threads, d.newThreads);
    forall t ensures t in grown <==> t in threads || t in d.newThreads { WithNewAt(threads, d.newThreads, t); }
    AppliesTotals(grown, d.appends);
    forall t | t in grown ensures grown[t] == Inherited(threads, t) { WithNewAt(threads, d.newThreads, t); }
  }

  function ThreadsOf(s: Option<Snapshot>): map<Id, Thread> {
    if s.Some? then s.value.threads else map[]
  }

  lemma BuildsWhenFitting(previous: Option<Snapshot>, d: Delta)
    ensures BuildSnapshot(previous, d).Some? <==> DeltaFits(ThreadsOf(previous).Keys, d)
  {
    if DeltaFits(ThreadsOf(previous).Keys, d) {
      GrownApplies(ThreadsOf(previous), d);
    }
  }

  /** The previous turn has a thread `t`. */
  predicate Known(previous: Option<Snapshot>, t: Id) {
    previous.Some? && t in previous.value.threads
  }

  function Owners(states: seq<(Id, Option<string>)>): seq<Id> {
    seq(|states|, i requires 0 <= i < |states| => states[i].0)
  }

  /** The new threads are new and named once, the additions go to known or new threads, and each of
      these, and no other, is given its capability state once. */
  ghost predicate Fitting(known: set<Id>, d: Delta) {
    && Distinct(d.newThreads) && Distinct(Owners(d.capabilities))
    && (forall t :: t in d.newThreads ==> t !in known)
    && (forall t :: t in Named(d.appends) ==> t in known || t in d.newThreads)
    && (forall t :: t in Owners(d.capabilities) <==> t in known || t in d.newThreads)
  }

  lemma FitsWhenFitting(known: set<Id>, d: Delta)
    requires DeltaFits(known, d)
    ensures Fitting(known, d)
  {
    var owners := Owners(d.capabilities);
    forall t | t in Named(d.appends) ensures t in known || t in d.newThreads {
      var i :| 0 <= i < |d.appends| && Named(d.appends)[i] == t;
      assert d.appends[i].thread == t;
    }
    forall t | t in known || t in d.newThreads ensures t in owners {
      var i :| 0 <= i < |d.capabilities| && d.capabilities[i].0 == t;
      assert owners[i] == t;
    }
    forall t | t in owners ensures t in known || t in d.newThreads {
      var i :| 0 <= i < |owners| && owners[i] == t;
      assert d.capabilities[i].0 == t;
    }
    forall i, j | 0 <= i < j < |owners| ensures owners[i] != owners[j] {
      assert d.capabilities[i].0 != d.capabilities[j].0;
    }
  }

  lemma FittingFits(known: set<Id>, d: Delta)
    requires Fitting(known, d)
    ensures DeltaFits(known, d)
  {
    var owners := Owners(d.capabilities);
    forall i | 0 <= i < |d.appends| ensures d.appends[i].thread in known || d.appends[i].thread in d.newThreads {
      assert Named(d.appends)[i] in Named(d.appends);
    }
    forall i | 0 <= i < |d.capabilities| ensures d.capabilities[i].0 in known || d.capabilities[i].0 in d.newThreads {
      assert owners[i] in owners;
    }
    forall i, j | 0 <= i < j < |d.capabilities| ensures d.capabilities[i].0 != d.capabilities[j].0 {
      assert owners[i] != owners[j];
    }
    forall t | t in known || t in d.newThreads ensures exists i :: 0 <= i < |d.capabilities| && d.capabilities[i].0 == t {
      assert t in owners;
      var i :| 0 <= i < |owners| && owners[i] == t;
      assert d.capabilities[i].0 == t;
    }
  }

  /** When a turn can be built on the previous one, or on none. */
  lemma BuildsExactly(previous: Option<Snapshot>, d: Delta)
    ensures BuildSnapshot(previous, d).Some? <==> Fitting(if previous.Some? then previous.value.threads.Keys else {}, d)
  {
    BuildsWhenFitting(previous, d);
    var known := ThreadsOf(previous).Keys;
    if DeltaFits(known, d) {
      FitsWhenFitting(known, d);
    }
    if Fitting(known, d) {
      FittingFits(known, d);
    }
  }

  // ----- What a thread then holds -----

  /** What is added to the context of `t`, in order; and the usages and completions given for it. */
  function ContextFor(appends: seq<Append>, t: Id): seq<Id> {
    if appends == [] then []
    else
      var last := appends[|appends| - 1];
      ContextFor(appends[..|appends| - 1], t) + if last.thread == t then last.context else []
  }

  function UsagesFor(appends: seq<Append>, t: Id): seq<nat> {
    if appends == [] then []
    else
      var last := appends[|appends| - 1];
      UsagesFor(appends[..|appends| - 1], t) + if last.thread == t && last.usage.Some? then [last.usage.value] else []
  }

  function CompletionsFor(appends: seq<Append>, t: Id): seq<string> {
    if appends == [] then []
    else
      var last := appends[|appends| - 1];
      CompletionsFor(appends[..|appends| - 1], t) + if last.thread == t && last.completion.Some? then [last.completion.value] else []
  }

  function LastOr<T>(given: seq<T>, otherwise: Option<T>): Option<T> {
    if given == [] then otherwise else Some(given[|given| - 1])
  }

  lemma {:induction false} TotalIs(appends: seq<Append>, t: Id)
    ensures Total(appends, t) == Append(t, ContextFor(appends, t), LastOr(UsagesFor(appends, t), None), LastOr(CompletionsFor(appends, t), None))
    decreases appends
  {
    if appends != [] {
      TotalIs(appends[..|appends| - 1], t);
    }
  }

  /** Every thread of a new turn continues where the previous turn's left it, or starts empty: its
      context with what was added to it, the last usage and completion given for it or those it had,
      and the capability state as given. Servers and sandbox are the previous turn's. */
  lemma BuildsOnPrevious(previous: Option<Snapshot>, d: Delta, t: Id)
    requires BuildSnapshot(previous, d).Some?
    ensures var after := BuildSnapshot(previous, d).value;
      && (t in after.threads <==> Known(previous, t) || t in d.newThreads)
      && after.mcpServers == (if previous.Some? then previous.value.mcpServers else None)
      && after.sandbox == (if previous.Some? then previous.value.sandbox else None)
      && (t in after.threads ==>
            var before, thread := (if Known(previous, t) then previous.value.threads[t] else NEW_THREAD), after.threads[t];
            && thread.context == before.context + ContextFor(d.appends, t)
            && thread.usage == LastOr(UsagesFor(d.appends, t), before.usage)
            && thread.completion == LastOr(CompletionsFor(d.appends, t), before.completion)
            && exists i :: 0 <= i < |d.capabilities| && d.capabilities[i] == (t, thread.capability))
  {
    BuildsWhenFitting(previous, d);
    GrownApplies(ThreadsOf(previous), d);
    TotalIs(d.appends, t);
    var extended := ApplyContextAppends(WithNew(ThreadsOf(previous), d.newThreads), d.appends).value;
    CapabilitiesOnly(extended, d.capabilities, t);
    if t in extended {
      CapabilityGiven(ThreadsOf(previous), d, extended, t);
    }
    hide ApplyContextAppends, WithNew, WithCapabilities, DeltaFits, ContextFor, UsagesFor, CompletionsFor, Total;
  }

  lemma CapabilityGiven(threads: map<Id, Thread>, d: Delta, extended: map<Id, Thread>, t: Id)
    requires DeltaFits(threads.Keys, d) && t in extended && (t in threads || t in d.newThreads)
    ensures t in WithCapabilities(extended, d.capabilities)
    ensures exists i :: 0 <= i < |d.capabilities| && d.capabilities[i] == (t, WithCapabilities(extended, d.capabilities)[t].capability)
  {
    var i :| 0 <= i < |d.capabilities| && d.capabilities[i].0 == t;
    assert LastFor(d.capabilities, i);
    CapabilitySet(extended, d.capabilities, i);
    assert d.capabilities[i] == (t, WithCapabilities(extended, d.capabilities)[t].capability);
  }
}
