/** What a verified ledger says about the event stream: each task lived one whole life, told by its own events, and
    its fields are the ones those events carried. */
module TaskHistories {
  import opened Collections
  import opened TaskLedger

  /** The events of one task in the first `n` lines. */
  function EventsOf(f: Format, lines: seq<string>, n: nat, id: string): seq<Event>
    requires n <= |lines|
  {
    if n == 0 then []
    else
      var r := f.decode(lines[n - 1]);
      EventsOf(f, lines, n - 1, id) + if r.Some? && r.value.taskId == id then [r.value.event] else []
  }

  /** The events that move the task on. */
  function Steps(es: seq<Event>): seq<Event> { Filter((e: Event) => !e.ConsumerAttached?, es) }

  /** The life that ends in this state: its last event, and the life before it. */
  predicate Tells(es: seq<Event>, s: State)
    decreases |es|
  {
    es != [] &&
    var e, before := es[|es| - 1], es[..|es| - 1];
    match s
    case Proposal => e.Proposed? && before == []
    case Selection => e.Selected? && Tells(before, Proposal)
    case Queue => e.Queued? && Tells(before, Selection)
    case ResourceWait => e.EnteredResourceWait? && Tells(before, Queue)
    case Admission => e.Admitted? && (Tells(before, Queue) || Tells(before, ResourceWait))
    case Setup => e.SetupStarted? && Tells(before, Admission)
    case Running => e.RunStarted? && Tells(before, Setup)
    case Cleanup(d) => e.ProcessFinished? && e.disposition == d != "SetupFailed" && Tells(before, Running)
    case ReceiptPending(d) =>
      || (e.CleanupFinished? && Tells(before, Cleanup(d)))
      || ((Tells(before, Admission) || Tells(before, Setup))
          && (e.SetupFailed? || (e.PreRunTerminated? && e.disposition in {"TimedOut", "Cancelled"}))
          && d == if e.SetupFailed? then "SetupFailed" else e.disposition)
    case ReleasePending(d) => (e.ReceiptCreated? || e.ReceiptCreationFailed?) && Tells(before, ReceiptPending(d))
    case Released(d) => e.ResourcesReleased? && Tells(before, ReleasePending(d))
    case Declined(d) =>
      && e.TerminallyDeclined? && e.disposition == d && (d == "SatisfiedByExistingReceipt" <==> e.existing.Some?)
      && (Tells(before, Proposal) || Tells(before, Selection) || Tells(before, Queue) || Tells(before, ResourceWait))
  }

  /** The fields are the ones the events carried. */
  ghost predicate Carries(t: Entry, es: seq<Event>) {
    && es != [] && es[0] == Proposed(t.source)
    && (t.startedAt.Some? <==> exists e :: e in es && e.RunStarted?)
    && (forall e :: e in es && e.Admitted? ==> t.reservations == e.reservations)
    && ((forall e :: e in es ==> !e.Admitted?) ==> t.reservations == [])
    && (forall e :: e in es && e.ReceiptCreated? ==> t.receipt == Some(Created(e.reference)))
    && (t.receipt.Some? && t.receipt.value.Created? ==> exists e :: e in es && e.ReceiptCreated?)
    && (t.receipt == Some(CreationFailed) <==> exists e :: e in es && e.ReceiptCreationFailed?)
    && (forall e :: e in es && e.TerminallyDeclined? ==> t.existing == e.existing)
    && ((forall e :: e in es ==> !e.TerminallyDeclined?) ==> t.existing.None?)
  }

  /** Times never go back. */
  predicate InOrder(es: seq<Event>) {
    forall i, j :: 0 <= i < j < |es| && At(es[i]).Some? && At(es[j]).Some? ==> At(es[i]).value <= At(es[j]).value
  }

  predicate LastTime(t: Entry, es: seq<Event>) {
    forall e :: e in es && At(e).Some? ==> t.lastAt.Some? && At(e).value <= t.lastAt.value
  }

  lemma TransitionTells(t: Entry, es: seq<Event>, e: Event)
    requires Tells(es, t.state) && Transition(t, e).Some?
    ensures Tells(es + [e], Transition(t, e).value.state)
  {
    assert (es + [e])[..|es|] == es;
  }

  /** What has not happened yet in a life that ends in this state. */
  lemma {:induction false} NotYet(es: seq<Event>, s: State)
    requires Tells(es, s)
    ensures s.Proposal? || s.Selection? || s.Queue? || s.ResourceWait? ==> forall e :: e in es ==> !e.Admitted? && !e.RunStarted?
    ensures s.Admission? || s.Setup? ==> forall e :: e in es ==> !e.RunStarted?
    ensures !s.ReleasePending? && !s.Released? ==> forall e :: e in es ==> !e.ReceiptCreated? && !e.ReceiptCreationFailed?
    ensures !s.Declined? ==> forall e :: e in es ==> !e.TerminallyDeclined?
    decreases |es|
  {
    var before := es[..|es| - 1];
    assert es == before + [es[|es| - 1]];
    match s
    case Proposal =>
    case Selection => NotYet(before, Proposal);
    case Queue => NotYet(before, Selection);
    case ResourceWait => NotYet(before, Queue);
    case Admission => if Tells(before, Queue) { NotYet(before, Queue); } else { NotYet(before, ResourceWait); }
    case Setup => NotYet(before, Admission);
    case Running => NotYet(before, Setup);
    case Cleanup(d) => NotYet(before, Running);
    case ReceiptPending(d) =>
      if Tells(before, Cleanup(d)) { NotYet(before, Cleanup(d)); }
      else if Tells(before, Admission) { NotYet(before, Admission); } else { NotYet(before, Setup); }
    case ReleasePending(d) => NotYet(before, ReceiptPending(d));
    case Released(d) => NotYet(before, ReleasePending(d));
    case Declined(d) =>
      if Tells(before, Proposal) { NotYet(before, Proposal); }
      else if Tells(before, Selection) { NotYet(before, Selection); }
      else if Tells(before, Queue) { NotYet(before, Queue); } else { NotYet(before, ResourceWait); }
  }

  lemma Snoc(es: seq<Event>, e: Event)
    ensures forall x :: x in es + [e] <==> x in es || x == e
    ensures es != [] ==> (es + [e])[0] == es[0]
  {
  }

  lemma TransitionCarries(t: Entry, es: seq<Event>, e: Event)
    requires Tells(es, t.state) && Carries(t, es) && Transition(t, e).Some? && !e.ConsumerAttached? && !e.Proposed?
    ensures Carries(Transition(t, e).value, es + [e])
  {
    hide Tells;
    NotYet(es, t.state);
    Snoc(es, e);
  }

  /** Consumers are the ones attached, each with the metadata it was attached with. */
  ghost predicate Attached(t: Entry, es: seq<Event>) {
    && (forall e :: e in es && e.ConsumerAttached? ==> e.id in t.consumers && t.consumers[e.id] == e.consumer)
    && forall id :: id in t.consumers ==> exists e :: e in es && e.ConsumerAttached? && e.id == id
  }

  /** The task lived the life its events tell. */
  ghost predicate Lived(t: Entry, es: seq<Event>) {
    Tells(Steps(es), t.state) && Carries(t, Steps(es)) && InOrder(es) && LastTime(t, es) && Attached(t, es)
  }

  lemma InOrderSnoc(t: Entry, es: seq<Event>, e: Event)
    requires InOrder(es) && LastTime(t, es) && (At(e).Some? && t.lastAt.Some? ==> t.lastAt.value <= At(e).value)
    ensures InOrder(es + [e])
  {
    var all := es + [e];
    forall i, j | 0 <= i < j < |all| && At(all[i]).Some? && At(all[j]).Some? ensures At(all[i]).value <= At(all[j]).value {
      if j == |es| { assert all[i] in es; }
    }
  }

  lemma StepsSnoc(es: seq<Event>, e: Event)
    ensures Steps(es + [e]) == if e.ConsumerAttached? then Steps(es) else Steps(es) + [e]
  {
    FilterAppend((x: Event) => !x.ConsumerAttached?, es, [e]);
  }

  lemma TransitionKeepsAside(t: Entry, e: Event)
    requires Transition(t, e).Some?
    ensures Transition(t, e).value.consumers == t.consumers && Transition(t, e).value.lastAt == t.lastAt
  {
    hide Measurable, Optional;
  }

  /** One more event continues the life. */
  lemma EventContinues(t: Entry, es: seq<Event>, id: string, e: Event)
    requires Lived(t, es) && Apply(Some(t), id, e).Some?
    ensures Lived(Apply(Some(t), id, e).value, es + [e])
  {
    hide Tells, Carries, Transition, InOrder, Steps, LastTime, Attached;
    var next := Apply(Some(t), id, e).value;
    StepsSnoc(es, e);
    InOrderSnoc(t, es, e);
    if e.ConsumerAttached? {
      ConsumersAside(t, Steps(es), next.consumers);
    } else {
      TransitionTells(t, Steps(es), e);
      TransitionCarries(t, Steps(es), e);
      StampAside(Transition(t, e).value, Steps(es) + [e], next.lastAt);
    }
    AsideContinues(t, es, id, e);
  }

  lemma AsideContinues(t: Entry, es: seq<Event>, id: string, e: Event)
    requires LastTime(t, es) && Attached(t, es) && Apply(Some(t), id, e).Some?
    ensures LastTime(Apply(Some(t), id, e).value, es + [e]) && Attached(Apply(Some(t), id, e).value, es + [e])
  {
    hide Transition;
    Snoc(es, e);
    if !e.ConsumerAttached? { TransitionKeepsAside(t, e); }
  }

  lemma ConsumersAside(t: Entry, es: seq<Event>, consumers: map<string, Consumer>)
    requires Carries(t, es)
    ensures Carries(t.(consumers := consumers), es)
  {
  }

  lemma StampAside(t: Entry, es: seq<Event>, at: Option<nat>)
    requires Carries(t, es)
    ensures Carries(t.(lastAt := at), es)
  {
  }

  lemma ProposalBegins(id: string, e: Event)
    requires e.Proposed?
    ensures Lived(Fresh(id, e.source), [e])
  {
    assert Steps([e]) == [e];
  }

  /** Every task lived the life told by its events, and no event speaks of a task that is not there. */
  lemma {:induction false} ReplayTells(f: Format, lines: seq<string>, n: nat, id: string)
    requires n <= |lines| && Replay(f, lines, n).Some?
    ensures var tasks := Replay(f, lines, n).value.tasks;
      if id in tasks then Lived(tasks[id], EventsOf(f, lines, n, id)) else EventsOf(f, lines, n, id) == []
  {
    hide Lived, Apply, Chained;
    if n > 0 {
      ReplayTells(f, lines, n - 1, id);
      var l := Replay(f, lines, n - 1).value;
      var r, before := f.decode(lines[n - 1]).value, EventsOf(f, lines, n - 1, id);
      assert [] + [r.event] == [r.event] && before + [] == before;
      if r.taskId == id {
        if id in l.tasks {
          EventContinues(l.tasks[id], before, id, r.event);
        } else {
          OnlyProposalsBegin(id, r.event);
          ProposalBegins(id, r.event);
        }
      }
    }
  }

  lemma OnlyProposalsBegin(id: string, e: Event)
    requires Apply(None, id, e).Some?
    ensures e.Proposed? && Apply(None, id, e) == Some(Fresh(id, e.source))
  {
  }

  /** In a verified ledger every row is a task of the stream and every task of the stream is a row. Each lived exactly the life
      its own events tell, from one proposal to a terminal state, with times that never go back, and carries the source,
      reservations, consumers, receipt and existing receipt those events gave it. */
  lemma LedgerTellsTheStream(f: Format, events: string, snapshot: seq<Entry>)
    requires Verified(f, events, snapshot)
    ensures var lines := LinesOf(events);
      && (forall i :: 0 <= i < |snapshot| ==>
            Lived(snapshot[i], EventsOf(f, lines, |lines|, snapshot[i].id)) && (snapshot[i].state.Released? || snapshot[i].state.Declined?))
      && forall id :: (forall i :: 0 <= i < |snapshot| ==> snapshot[i].id != id) ==> EventsOf(f, lines, |lines|, id) == []
  {
    hide Replay, Lived, LinesOf;
    var lines := LinesOf(events);
    forall id ensures var tasks := Replay(f, lines, |lines|).value.tasks;
      if id in tasks then Lived(tasks[id], EventsOf(f, lines, |lines|, id)) else EventsOf(f, lines, |lines|, id) == []
    {
      ReplayTells(f, lines, |lines|, id);
    }
  }
}
