/** What a member's user is to be shown of the messages its session has applied. */
module Surfacing {
  import opened Base
  import opened Wire
  import opened Engine

  predicate OwnCommit(c: Content, m: MemberId) {
    c.Commit? && c.author == m
  }

  /** A message is shown as itself, a commit as the epoch it leads to. */
  function EventFor(id: MessageId): Event {
    if id.content.Commit? then EpochAdvanced(id, id.content.epoch + 1) else Message(id)
  }

  /** The events of the applied messages, in order, without the member's own commits and those in `lost`. */
  function Shown(applied: seq<MessageId>, me: MemberId, lost: set<MessageId>): seq<Event> {
    if applied == [] then []
    else
      var before, id := Shown(applied[..|applied| - 1], me, lost), applied[|applied| - 1];
      if OwnCommit(id.content, me) || id in lost then before else before + [EventFor(id)]
  }

  function EventIds(es: seq<Event>): set<MessageId> {
    set e | e in es :: e.id
  }

  lemma ShownSnoc(applied: seq<MessageId>, id: MessageId, me: MemberId, lost: set<MessageId>)
    ensures
      Shown(applied + [id], me, lost) ==
      if OwnCommit(id.content, me) || id in lost then Shown(applied, me, lost)
      else Shown(applied, me, lost) + [EventFor(id)]
  {
    assert (applied + [id])[..|applied|] == applied;
  }

  /** Exactly the applied messages that are not the member's own commits and not lost are shown. */
  lemma {:induction false} ShownIsApplied(applied: seq<MessageId>, me: MemberId, lost: set<MessageId>, e: Event)
    ensures e in Shown(applied, me, lost) <==>
      e == EventFor(e.id) && e.id in applied && !OwnCommit(e.id.content, me) && e.id !in lost
  {
    if applied != [] {
      ShownIsApplied(applied[..|applied| - 1], me, lost, e);
      assert applied == applied[..|applied| - 1] + [applied[|applied| - 1]];
    }
  }

  /** No message is shown twice. */
  lemma {:induction false} ShownOnce(applied: seq<MessageId>, me: MemberId, lost: set<MessageId>, i: nat, j: nat)
    requires Distinct(applied) && i < j < |Shown(applied, me, lost)|
    ensures Shown(applied, me, lost)[i].id != Shown(applied, me, lost)[j].id
  {
    var init := applied[..|applied| - 1];
    var before := Shown(init, me, lost);
    if j < |before| {
      ShownOnce(init, me, lost, i, j);
    } else {
      assert before[i] in before;
      ShownIsApplied(init, me, lost, before[i]);
    }
  }

  /** Only what was applied matters of what was lost. */
  lemma {:induction false} ShownAgrees(applied: seq<MessageId>, me: MemberId, a: set<MessageId>, b: set<MessageId>)
    requires forall id :: id in applied ==> (id in a <==> id in b)
    ensures Shown(applied, me, a) == Shown(applied, me, b)
  {
    if applied != [] {
      assert applied[|applied| - 1] in applied;
      assert forall id :: id in applied[..|applied| - 1] ==> id in applied;
      ShownAgrees(applied[..|applied| - 1], me, a, b);
    }
  }

  /** If everything shown comes from the first `n` messages, the others add nothing. */
  lemma {:induction false} ShownByPrefix(applied: seq<MessageId>, n: nat, me: MemberId, lost: set<MessageId>)
    requires Distinct(applied) && n <= |applied|
    requires forall e :: e in Shown(applied, me, lost) ==> e.id in applied[..n]
    ensures Shown(applied[..n], me, lost) == Shown(applied, me, lost)
  {
    if n == |applied| {
      assert applied[..n] == applied;
    } else {
      var init, last := applied[..|applied| - 1], applied[|applied| - 1];
      assert applied == init + [last];
      ShownSnoc(init, last, me, lost);
      assert last !in applied[..n];
      assert EventFor(last) !in Shown(applied, me, lost);
      assert Shown(applied, me, lost) == Shown(init, me, lost);
      assert init[..n] == applied[..n];
      ShownByPrefix(init, n, me, lost);
    }
  }

  lemma LastOfBoth(kept: seq<Event>, queued: seq<Event>, before: seq<Event>, e: Event)
    requires kept + queued == before + [e] && queued != []
    ensures queued == queued[..|queued| - 1] + [e] && kept + queued[..|queued| - 1] == before
  {
    assert (kept + queued)[|kept + queued| - 1] == queued[|queued| - 1];
    assert (kept + queued)[..|kept + queued| - 1] == kept + queued[..|queued| - 1];
    assert (before + [e])[..|before|] == before;
  }

  /** Losing the events at the end leaves the ones before them. */
  lemma {:induction false} ShownWithoutTail(
    applied: seq<MessageId>, me: MemberId, lost: set<MessageId>, kept: seq<Event>, queued: seq<Event>)
    requires Distinct(applied) && Shown(applied, me, lost) == kept + queued
    ensures Shown(applied, me, lost + EventIds(queued)) == kept
  {
    if queued == [] {
      assert lost + EventIds(queued) == lost;
      assert kept + queued == kept;
    } else {
      var init, last := applied[..|applied| - 1], applied[|applied| - 1];
      assert applied == init + [last];
      ShownSnoc(init, last, me, lost);
      ShownSnoc(init, last, me, lost + EventIds(queued));
      hide Shown;
      if OwnCommit(last.content, me) || last in lost {
        ShownWithoutTail(init, me, lost, kept, queued);
      } else {
        var rest := queued[..|queued| - 1];
        LastOfBoth(kept, queued, Shown(init, me, lost), EventFor(last));
        ShownWithoutTail(init, me, lost, kept, rest);
        assert EventIds(queued) == EventIds(rest) + {last};
        ShownAgrees(init, me, lost + EventIds(rest), lost + EventIds(queued));
      }
    }
  }

  /** After a crash: the durable messages, less the events that were still queued for them. */
  lemma ShownAfterCrash(
    applied: seq<MessageId>, n: nat, me: MemberId, lost: set<MessageId>, kept: seq<Event>, queued: seq<Event>)
    requires Distinct(applied) && n <= |applied| && Shown(applied, me, lost) == kept + queued
    requires forall e :: e in kept ==> e.id in applied[..n]
    ensures Shown(applied[..n], me, lost + set e | e in queued && e.id in applied[..n] :: e.id) == kept
  {
    ShownWithoutTail(applied, me, lost, kept, queued);
    ShownByPrefix(applied, n, me, lost + EventIds(queued));
    ShownAgrees(applied[..n], me, lost + EventIds(queued),
                lost + set e | e in queued && e.id in applied[..n] :: e.id);
  }
}
