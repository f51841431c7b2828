/**
  What goes wrong for an offline-first client, and when: changes between a push and its reply, entries
  the cursor passes over, refused deletions
  (crates/zann-client/src/sync.rs:285-371, crates/zann-client/src/sync_helpers.rs:136-145, 248-277).
 */
module OfflineWindow {
  import opened Base
  import opened ReplicaModel
  import opened ConflictStep
  import opened ServerLog
  import opened PullJoin
  import opened PullRuns
  import opened PushCursor
  import opened OfflineModel
  import opened OfflineRuns

  /** The acknowledged change at position `i` is still the latest entry of its item. */
  predicate StillLatest(d: Dev, i: nat) {
    && d.flight.Some? && var f := d.flight.value;
    && i < |f.order| && |f.acks| == |f.order| && f.order[i] in f.sent
    && LastOf(d.net.server.log, f.order[i]) == Some(LogEntry(f.acks[i].seqNo, f.order[i], OpOf(f.sent[f.order[i]])))
  }

  /**
    An acknowledgement makes the row of its item synced, at the server's latest number. If the pushed
    change is still the latest, the row is then the server's if and only if its draft was not changed
    between the push and the reply.
   */
  lemma ReplyMatchesIff(env: Env, d: Dev, i: nat)
    requires DevInv(env, d) && StillLatest(d, i) && OpOf(d.flight.value.sent[d.flight.value.order[i]]) != Delete
    ensures ValidServer(d.net.server)
    ensures var f := d.flight.value;
            var id, m := f.order[i], Next(env, d, PushReply);
            && id in d.net.store.items && Clean(env, m.net.store, id)
            && m.net.store.items[id].version == LatestNo(m.net.server.log, id)
            && (Matches(env, m.net.server, m.net.store, id) <==> DraftOf(d.net.store.items[id]) == f.sent[id].draft)
  {
    var f := d.flight.value;
    var id := f.order[i];
    InvIsValid(env, d.net, d.debt);
    AckedRow(env, d, i);
    assert AtHomeRow(env, d.net.store.items, id);
    AckedMatchesIff(env, d.net.server, d.net.store.items, RepliedStore(env, d, f), id, f.sent[id], f.acks[i]);
    hide DevInv, RepliedStore, AgreedAcks, Matches, LastOf, LastSeq, ValidServer, Next;
    RepliedFields(env, d);
    SameMatches(env, Next(env, d, PushReply).net, d.net.server, RepliedStore(env, d, f), id);
  }

  lemma SameMatches(env: Env, n: Net, s: Server, st: Store, id: Uuid)
    requires n.server == s && n.store == st
    ensures Matches(env, n.server, n.store, id) <==> Matches(env, s, st, id)
  {
  }

  /** What an edit of a pushed item does while the reply is on its way. */
  lemma EditInFlight(env: Env, d: Dev, i: nat, draft: Draft, now: Time, fp: string)
    requires DevInv(env, d) && StillLatest(d, i) && Editable(env, d, d.flight.value.order[i])
    requires draft.checksum == env.hash(draft.payload)
    ensures ValidServer(d.net.server)
    ensures var f := d.flight.value;
            var id := f.order[i];
            var m := Next(env, d, Edit(id, draft, now, fp));
            && DevInv(env, m) && StillLatest(m, i)
            && m.flight.value.order == f.order && m.flight.value.sent == f.sent && m.flight.value.acks == f.acks
            && m.net.server == d.net.server && id in m.flight.value.changed
            && id in m.net.store.items && DraftOf(m.net.store.items[id]) == draft
            && id in m.queue && m.queue[id] == Merge(d.queue, id, Onto(false, d.net.store.items[id].version, draft))
  {
    hide DevInv, LastOf, ValidServer, Merge;
    EditKeepsInv(env, d, Edit(d.flight.value.order[i], draft, now, fp));
  }

  /**
    The failing input. A pushed item is edited to another draft before the reply comes. Then the row
    is shown as synced, at the server's latest number, with the new draft, which the server does not
    have; and the queued edit stays on its old base, so the server refuses it unless that base was a
    number past the push itself.
   */
  lemma EditInFlightIsMisreported(env: Env, d: Dev, i: nat, draft: Draft, now: Time, fp: string)
    requires DevInv(env, d) && StillLatest(d, i) && Editable(env, d, d.flight.value.order[i])
    requires d.flight.value.order[i] !in d.flight.value.changed
    requires draft.checksum == env.hash(draft.payload)
    requires OpOf(d.flight.value.sent[d.flight.value.order[i]]) != Delete
    requires draft != d.flight.value.sent[d.flight.value.order[i]].draft
    ensures ValidServer(d.net.server)
    ensures var f := d.flight.value;
            var id, mid := f.order[i], Next(env, d, Edit(f.order[i], draft, now, fp));
            && ValidServer(mid.net.server)
            && var m := Next(env, mid, PushReply);
               && Clean(env, m.net.store, id) && m.net.store.items[id].version == LatestNo(m.net.server.log, id)
               && DraftOf(m.net.store.items[id]) == draft
               && !Matches(env, m.net.server, m.net.store, id)
               && id in m.debt.loose && id in m.queue && m.queue[id].draft == draft
               && (Accepts(m.net.server, id, m.queue[id])
                   <==> f.sent[id].Onto? && f.sent[id].base >= f.acks[i].seqNo)
  {
    var f := d.flight.value;
    var id := f.order[i];
    var mid := Next(env, d, Edit(id, draft, now, fp));
    assert id in d.queue && d.queue[id] == f.sent[id] && (f.sent[id].Onto? ==> f.sent[id].base > 0) by {
      DevQueueOk(env, d);
      assert SentOk(env, d.net.store.items, d.queue, d.debt.loose, f, id);
    }
    EditInFlight(env, d, i, draft, now, fp);
    ReplyMatchesIff(env, mid, i);
    RepliedQueue(env, mid, i);
    hide DevInv, Next, Matches, ValidServer, LastOf;
  }

  lemma RepliedQueue(env: Env, d: Dev, i: nat)
    requires DevInv(env, d) && d.flight.Some? && i < |d.flight.value.order|
    requires d.flight.value.order[i] in d.flight.value.changed && d.flight.value.order[i] in d.queue
    ensures ValidServer(d.net.server)
    ensures var id, m := d.flight.value.order[i], Next(env, d, PushReply);
            && id in m.queue && m.queue[id] == d.queue[id] && id in m.debt.loose && m.net.server == d.net.server
            && id in m.net.store.items && id in d.net.store.items
            && DraftOf(m.net.store.items[id]) == DraftOf(d.net.store.items[id])
  {
    InvIsValid(env, d.net, d.debt);
    AckedRow(env, d, i);
    hide DevInv, RepliedStore, AgreedAcks, LastSeq, ValidServer, Next;
    RepliedFields(env, d);
  }

  /** Nothing else makes an item loose: a reply, and a change between the push and that reply. */
  lemma OnlyRepliesLoosen(env: Env, d: Dev, e: OfflineModel.Event, id: Uuid)
    requires ValidServer(d.net.server)
    ensures var m := Next(env, d, e);
            id in m.debt.loose && id !in d.debt.loose ==>
              e.PushReply? && d.flight.Some? && id in d.flight.value.changed
  {
    hide Step, Refuse, ApplyAcks, AgreedAcks, Acks, AcceptPush, LastSeq, Merge;
  }

  /**
    A change is written down as missed by a reply, whose cursor passes over what the replica has not
    got, or by a pulled change of the item that a local version, or another storage's row, keeps out.
   */
  lemma OnlyPassedIsMissed(env: Env, d: Dev, e: OfflineModel.Event, entry: LogEntry)
    requires ValidServer(d.net.server)
    ensures var m := Next(env, d, e);
            entry in m.debt.missed && entry !in d.debt.missed ==>
              && entry in d.net.server.log && !Got(m.agreed, entry)
              && (e.PushReply? || e.PushRefused? || (e.Pulling? && KeptOut(env, d, entry)))
  {
    hide Step, Refuse, ApplyAcks, AgreedAcks, Acks, AcceptPush, LastSeq, Merge;
  }

  predicate KeptOut(env: Env, d: Dev, entry: LogEntry) {
    && d.net.phase.Applying? && d.net.phase.inbox != []
    && var c := d.net.phase.inbox[0];
       c.item == entry.item && c.seqNo >= entry.seqNo && !Beats(d.net.store, env, c)
  }

  /** A refused deletion is forgotten: the row stays deleted here, and nothing is queued any more. */
  lemma RefusedDeletionIsForgotten(env: Env, d: Dev, id: Uuid, draw: nat -> Draw)
    requires DevInv(env, d) && d.flight.None? && d.net.phase.Ready?
    requires id in d.queue && OpOf(d.queue[id]) == Delete
    ensures ValidServer(d.net.server)
    ensures var m := Next(env, d, PushRefused([id], draw));
            id !in m.queue && id in m.net.store.items && m.net.store.items[id] == d.net.store.items[id]
  {
    InvIsValid(env, d.net, d.debt);
    assert AtHomeRow(env, d.net.store.items, id);
    assert [id][..0] == [];
    assert Refuse(env, d.net.store.items, d.queue, [], draw) == d.net.store.items;
    hide DevInv, LastSeq, ValidServer;
  }
}
