/** Request/reply routing over one relay connection, for any interleaving of callers and reader. */
module Calls {
  import opened Base

  type RequestId = nat
  type CallId = nat
  type Text = nat

  /** The table shared by callers and the reader task, each access under its lock. */
  datatype Table = Table(closed: bool, waiting: map<RequestId, CallId>)

  function Entered(t: Table, id: RequestId, c: CallId): Table {
    if t.closed then t else t.(waiting := t.waiting[id := c])
  }

  function Removed(t: Table, id: RequestId): Table {
    t.(waiting := t.waiting - {id})
  }

  const SHUT := Table(true, map[])

  class PendingReplies {
    var closed: bool
    var waiting: map<RequestId, CallId>

    function View(): Table
      reads this
    {
      Table(closed, waiting)
    }

    constructor ()
      ensures View() == Table(false, map[])
    {
      closed, waiting := false, map[];
    }

    /** A caller enters its reply slot, unless the connection is already gone. */
    method Insert(id: RequestId, c: CallId) returns (ok: bool)
      modifies this
      ensures ok == !old(closed)
      ensures View() == Entered(old(View()), id, c)
    {
      if closed {
        return false;
      }
      waiting := waiting[id := c];
      return true;
    }

    /** Takes the slot of a request out, if it is there. */
    method Remove(id: RequestId) returns (c: Option<CallId>)
      modifies this
      ensures c == if id in old(waiting) then Some(old(waiting)[id]) else None
      ensures View() == Removed(old(View()), id)
    {
      c := if id in waiting then Some(waiting[id]) else None;
      waiting := waiting - {id};
    }

    /** The reader's last step: no slot is left and none will be accepted. */
    method Close() returns (dropped: map<RequestId, CallId>)
      modifies this
      ensures dropped == old(waiting) && View() == SHUT
    {
      dropped := waiting;
      closed, waiting := true, map[];
    }
  }

  // ---- the interleaved system ----------------------------------------------------------------

  datatype Outcome = Got(id: RequestId, text: Text) | ConnectionClosed

  /** Where a call stands; an unsent one found the writer gone, an abandoned one was dropped. */
  datatype Stage =
    | Allocated(id: RequestId)
    | Registered(id: RequestId)
    | Waiting(id: RequestId)
    | Unsent(id: RequestId)
    | Done(id: RequestId, outcome: Outcome)
    | Abandoned(id: RequestId)

  /** The one-shot channel of a call: its sender lives in the table until used or dropped. */
  datatype Slot = Empty | Filled(id: RequestId, text: Text) | SenderDropped

  datatype Net = Net(
    nextId: nat, table: Table, stages: map<CallId, Stage>, slots: map<CallId, Slot>,
    heard: seq<(RequestId, Text)>)

  const START := Net(0, Table(false, map[]), map[], map[], [])

  datatype Act =
    | Allocate(c: CallId)
    | Register(c: CallId)
    | Write(c: CallId, ok: bool)
    | Withdraw(c: CallId)
    | Reply(id: RequestId, text: Text)
    | ReaderExits
    | Await(c: CallId)
    | GiveUp(c: CallId)

  function Moved(n: Net, c: CallId, st: Stage): Net {
    n.(stages := n.stages[c := st])
  }

  /** The reader takes one reply frame; an id nobody waits under is discarded. */
  function Heard(n: Net, id: RequestId, text: Text): Net {
    var t := n.(heard := n.heard + [(id, text)], table := Removed(n.table, id));
    if id in n.table.waiting then t.(slots := n.slots[n.table.waiting[id] := Filled(id, text)]) else t
  }

  function Dropped(n: Net): Net {
    n.(table := SHUT,
       slots := map c | c in n.slots :: if c in n.table.waiting.Values then SenderDropped else n.slots[c])
  }

  /** A call's own next move from the stage it has reached. */
  function CallStep(n: Net, a: Act): Net
    requires a.Register? || a.Write? || a.Withdraw? || a.Await? || a.GiveUp?
    requires a.c in n.stages
  {
    var c := a.c;
    var st := n.stages[c];
    match a
    case Register(_) =>
      if !st.Allocated? then n
      else if n.table.closed then Moved(n, c, Done(st.id, ConnectionClosed))
      else Moved(n, c, Registered(st.id)).(table := Entered(n.table, st.id, c), slots := n.slots[c := Empty])
    case Write(_, ok) =>
      if !st.Registered? then n else Moved(n, c, if ok then Waiting(st.id) else Unsent(st.id))
    case Withdraw(_) =>
      if !st.Unsent? then n
      else Moved(n, c, Done(st.id, ConnectionClosed)).(table := Removed(n.table, st.id))
    case Await(_) =>
      if !st.Waiting? || c !in n.slots || n.slots[c].Empty? then n
      else
        var got := n.slots[c];
        Moved(n, c, Done(st.id, if got.Filled? then Got(got.id, got.text) else ConnectionClosed))
    case GiveUp(_) =>
      if st.Done? then n else Moved(n, c, Abandoned(st.id))
  }

  function Step(n: Net, a: Act): Net {
    match a
    case Allocate(c) =>
      if c in n.stages then n else Moved(n, c, Allocated(n.nextId)).(nextId := n.nextId + 1)
    case Reply(id, text) => if n.table.closed then n else Heard(n, id, text)
    case ReaderExits => Dropped(n)
    case _ => if a.c in n.stages then CallStep(n, a) else n
  }

  function Run(acts: seq<Act>): Net {
    if acts == [] then START else Step(Run(acts[..|acts| - 1]), acts[|acts| - 1])
  }

  // ---- what every interleaving keeps ---------------------------------------------------------

  ghost predicate IdsDistinct(n: Net) {
    && (forall c :: c in n.stages ==> n.stages[c].id < n.nextId)
    && (forall c, d :: c in n.stages && d in n.stages && n.stages[c].id == n.stages[d].id ==> c == d)
  }

  /** Every sender in the table is unused and belongs to the call that allocated its id. */
  ghost predicate TableOk(n: Net) {
    && n.slots.Keys <= n.stages.Keys
    && (forall id :: id in n.table.waiting ==>
          && n.table.waiting[id] in n.slots && n.slots[n.table.waiting[id]].Empty?
          && n.stages[n.table.waiting[id]].id == id)
    && (n.table.closed ==> n.table.waiting == map[])
  }

  ghost predicate CallOk(n: Net, c: CallId)
    requires c in n.stages
  {
    var st := n.stages[c];
    && (st.Allocated? ==> c !in n.slots)
    && (st.Registered? || st.Waiting? ==>
          && c in n.slots
          && (n.slots[c].Empty? ==>
                !n.table.closed && st.id in n.table.waiting && n.table.waiting[st.id] == c))
    && (c in n.slots && n.slots[c].Filled? ==>
          n.slots[c].id == st.id && (n.slots[c].id, n.slots[c].text) in n.heard)
    && (st.Done? && st.outcome.Got? ==>
          && st.outcome.id == st.id && (st.id, st.outcome.text) in n.heard
          && c in n.slots && n.slots[c] == Filled(st.id, st.outcome.text))
  }

  ghost predicate NetInv(n: Net) {
    IdsDistinct(n) && TableOk(n) && forall c :: c in n.stages ==> CallOk(n, c)
  }

  lemma HeardKeeps(n: Net, id: RequestId, text: Text, c: CallId)
    requires NetInv(n) && c in n.stages
    ensures CallOk(Heard(n, id, text), c)
  {
    assert CallOk(n, c);
  }

  lemma DroppedKeeps(n: Net, c: CallId)
    requires NetInv(n) && c in n.stages
    ensures CallOk(Dropped(n), c)
  {
    var st := n.stages[c];
    assert CallOk(n, c);
    if (st.Registered? || st.Waiting?) && n.slots[c].Empty? {
      assert n.table.waiting[st.id] == c;
    }
  }

  lemma CallStepKeeps(n: Net, a: Act, d: CallId)
    requires NetInv(n) && d in n.stages
    requires a.Register? || a.Write? || a.Withdraw? || a.Await? || a.GiveUp?
    requires a.c in n.stages
    ensures CallOk(CallStep(n, a), d)
  {
    assert CallOk(n, d) && CallOk(n, a.c);
  }

  lemma StepKeeps(n: Net, a: Act)
    requires NetInv(n)
    ensures NetInv(Step(n, a))
  {
    var t := Step(n, a);
    StepKeepsTable(n, a);
    assert IdsDistinct(t) by {
      if !a.Allocate? {
        StepKeepsIds(n, a);
      }
    }
    forall c | c in t.stages
      ensures CallOk(t, c)
    {
      if a.Allocate? {
        assert c in n.stages ==> CallOk(n, c);
      } else {
        StepKeepsCall(n, a, c);
      }
    }
  }

  lemma StepKeepsCall(n: Net, a: Act, c: CallId)
    requires NetInv(n) && !a.Allocate? && c in n.stages
    ensures c in Step(n, a).stages && CallOk(Step(n, a), c)
  {
    hide CallOk;
    assert CallOk(n, c);
    if a.Reply? {
      HeardKeeps(n, a.id, a.text, c);
    } else if a.ReaderExits? {
      DroppedKeeps(n, c);
    } else if a.c in n.stages {
      CallStepKeeps(n, a, c);
    }
  }

  /** Only an allocation gives out an id, and no step changes one. */
  lemma StepKeepsIds(n: Net, a: Act)
    requires !a.Allocate?
    ensures
      var t := Step(n, a);
      && t.nextId == n.nextId && t.stages.Keys == n.stages.Keys
      && forall c :: c in n.stages ==> t.stages[c].id == n.stages[c].id
  {
  }

  lemma CallStepKeepsTable(n: Net, a: Act)
    requires NetInv(n)
    requires a.Register? || a.Write? || a.Withdraw? || a.Await? || a.GiveUp?
    requires a.c in n.stages
    ensures TableOk(CallStep(n, a))
  {
    assert CallOk(n, a.c);
  }

  lemma ReaderKeepsTable(n: Net, id: RequestId, text: Text)
    requires NetInv(n)
    ensures TableOk(Heard(n, id, text)) && TableOk(Dropped(n))
  {
  }

  lemma StepKeepsTable(n: Net, a: Act)
    requires NetInv(n)
    ensures TableOk(Step(n, a))
  {
    hide CallStep, Heard, Dropped;
    if a.Reply? {
      ReaderKeepsTable(n, a.id, a.text);
    } else if a.ReaderExits? {
      ReaderKeepsTable(n, 0, 0);
    } else if !a.Allocate? && a.c in n.stages {
      CallStepKeepsTable(n, a);
    }
  }

  lemma {:induction false} RunKeeps(acts: seq<Act>)
    ensures NetInv(Run(acts))
  {
    if acts != [] {
      RunKeeps(acts[..|acts| - 1]);
      StepKeeps(Run(acts[..|acts| - 1]), acts[|acts| - 1]);
    }
  }

  /**
   * Under every interleaving a call that gets a reply gets one the relay addressed to the id this
   * call, and no other, allocated.
   */
  lemma RepliesAreRouted(acts: seq<Act>, c: CallId)
    requires c in Run(acts).stages && Run(acts).stages[c].Done? && Run(acts).stages[c].outcome.Got?
    ensures
      var n := Run(acts);
      var st := n.stages[c];
      && st.outcome.id == st.id && (st.id, st.outcome.text) in n.heard
      && forall d :: d in n.stages && n.stages[d].id == st.id ==> d == c
  {
    RunKeeps(acts);
    assert CallOk(Run(acts), c);
  }

  /** A reply that has come in for a call is the one it keeps: later replies to its id change nothing for it. */
  lemma {:induction false} FirstReplyStands(acts: seq<Act>, i: nat, c: CallId)
    requires i <= |acts| && c in Run(acts[..i]).slots && Run(acts[..i]).slots[c].Filled?
    ensures c in Run(acts).slots && Run(acts).slots[c] == Run(acts[..i]).slots[c]
    ensures c in Run(acts).stages
    ensures
      var n := Run(acts);
      n.stages[c].Done? && n.stages[c].outcome.Got? ==> n.slots[c] == Filled(n.stages[c].id, n.stages[c].outcome.text)
  {
    hide Step;
    RunKeeps(acts);
    if i == |acts| {
      assert acts[..i] == acts;
    } else {
      var init := acts[..|acts| - 1];
      assert init[..i] == acts[..i];
      FirstReplyStands(init, i, c);
      RunKeeps(init);
      StepKeepsFilled(Run(init), acts[|acts| - 1], c);
    }
    assert CallOk(Run(acts), c);
  }

  lemma StepKeepsFilled(n: Net, a: Act, c: CallId)
    requires NetInv(n) && c in n.slots && n.slots[c].Filled?
    ensures c in Step(n, a).slots && Step(n, a).slots[c] == n.slots[c]
  {
    assert CallOk(n, c);
  }

  /** A call still waiting is either one the reader can still answer or one whose answer is in. */
  lemma WaitingIsAnswerable(acts: seq<Act>, c: CallId, text: Text)
    requires c in Run(acts).stages && Run(acts).stages[c].Waiting?
    ensures
      var n := Run(acts);
      var st := n.stages[c];
      if Step(n, Await(c)) == n then
        Step(Step(n, Reply(st.id, text)), Await(c)).stages[c] == Done(st.id, Got(st.id, text))
      else Step(n, Await(c)).stages[c].Done?
  {
    RunKeeps(acts);
    assert CallOk(Run(acts), c);
  }

  function OwnSteps(n: Net, c: CallId, ok: bool): Net {
    Step(Step(Step(Step(n, Register(c)), Write(c, ok)), Withdraw(c)), Await(c))
  }

  /** Once the reader has exited, a call at any stage finishes by its own next steps alone. */
  lemma NoCallStuckAfterExit(acts: seq<Act>, c: CallId, ok: bool)
    requires Run(acts).table.closed && c in Run(acts).stages && !Run(acts).stages[c].Abandoned?
    ensures c in OwnSteps(Run(acts), c, ok).stages && OwnSteps(Run(acts), c, ok).stages[c].Done?
  {
    var n := Run(acts);
    RunKeeps(acts);
    assert CallOk(n, c);
    var n1 := Step(n, Register(c));
    assert n1.stages[c].Done? || n1 == n;
    var n2 := Step(n1, Write(c, ok));
    assert n2.stages[c].Done? || n2.stages[c].Unsent? || (n2.stages[c].Waiting? && !n2.slots[c].Empty?);
  }
}
