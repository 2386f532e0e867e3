/** Every step of the chat protocol keeps its invariant. */
module ChatReplicaSteps {
  import opened ChatTables
  import opened ChatFeed
  import opened ChatProtocol
  import opened ChatReplica

  // ----- the server moves -----

  lemma FlightGrows(s: Sys, u: Tables, f: Flight)
    requires TablesOk(s.server) && TablesOk(u) && Grows(s.server, u) && DataOk(s) && FlightOk(s, f)
    ensures FlightOk(s.(server := u), f)
  {
    var s' := s.(server := u);
    assert Relevant(s', f.ctx) == Relevant(s, f.ctx);
    if f.op.OpOlder? && Relevant(s, f.ctx) {
      assert HeldFrom(s, f.op.beforeId);
    }
    if f.Answered? {
      match f.reply
      case RHistory(reply) =>
        var before := if f.op.OpHistory? then 0 else f.op.beforeId;
        if reply.generation == s.server.generation {
          SnapshotGrows(s.server, u, before, f.ctx.admin, reply, f.asOf.lastId);
        }
      case RChanges(reply) =>
        if Relevant(s, f.ctx) {
        }
      case RMutations(mutations) =>
        if Relevant(s, f.ctx) {
          forall k | 0 <= k < |mutations|
            ensures MutationGood(u, s.base, mutations[k])
          {
            assert MutationGood(s.server, s.base, mutations[k]);
          }
        }
      case _ =>
    }
  }

  lemma ServerMoves(s: Sys, u: Tables)
    requires Inv(s) && TablesOk(u) && Moves(s.server, u)
    ensures Inv(s.(server := u))
  {
    var s' := s.(server := u);
    if Grows(s.server, u) {
      forall n | n in s.flights
        ensures FlightOk(s', s.flights[n])
      {
        FlightGrows(s, u, s.flights[n]);
      }
    } else {
      forall n | n in s.flights
        ensures FlightOk(s', s.flights[n])
      {
      }
    }
  }

  // ----- the feed drops its projection -----

  /** A view that starts over: nothing shown, a higher revision, no sync running. */
  ghost predicate StartsOver(v: View, w: View) {
    && w.revision > v.revision
    && w.messages == map[] && w.marks == map[]
    && w.sync.Idle? && w.syncCount == v.syncCount
    && (w.disposed || w.generation.None?)
    && (w.generation.Some? ==> w.generation == v.generation)
    && (w.nextBeforeId.Some? ==> w.generation.Some? && w.nextBeforeId == v.nextBeforeId)
  }

  lemma FlightAbandoned(s: Sys, v: View, f: Flight)
    requires ClientOk(s) && FlightOk(s, f) && StartsOver(s.client, v)
    ensures FlightOk(s.(client := v), f)
  {
    assert !Relevant(s.(client := v), f.ctx);
  }

  lemma FeedStartsOver(s: Sys, v: View)
    requires Inv(s) && StartsOver(s.client, v)
    ensures Inv(s.(client := v))
  {
    forall n | n in s.flights
      ensures FlightOk(s.(client := v), s.flights[n])
    {
      FlightAbandoned(s, v, s.flights[n]);
    }
  }

  // ----- the feed changes flags only -----

  ghost predicate SameProjection(v: View, w: View) {
    && w.messages == v.messages && w.marks == v.marks && w.generation == v.generation
    && w.cursor == v.cursor && w.nextBeforeId == v.nextBeforeId && w.hasMore == v.hasMore
    && w.revision == v.revision && w.binding == v.binding && w.disposed == v.disposed
  }

  lemma FlightUnaffected(s: Sys, v: View, f: Flight)
    requires FlightOk(s, f) && SameProjection(s.client, v)
    ensures FlightOk(s.(client := v), f)
  {
    var s' := s.(client := v);
    assert Relevant(s', f.ctx) == Relevant(s, f.ctx);
    if f.op.OpOlder? && Relevant(s, f.ctx) {
      assert HeldFrom(s, f.op.beforeId);
    }
  }

  lemma DataUnaffected(s: Sys, v: View)
    requires DataOk(s) && SameProjection(s.client, v)
    ensures DataOk(s.(client := v))
  {
    var s' := s.(client := v);
    if Live(s) {
      assert HeldOk(s) && AppliedOk(s) && CoverageOk(s);
      forall c | s'.base < c <= s'.client.cursor
        ensures c in s'.server.changes && Reflected(v, s'.server, c)
      {
        assert Reflected(s.client, s.server, c);
      }
    }
  }

  lemma FlagsMove(s: Sys, v: View)
    requires Inv(s) && SameProjection(s.client, v) && SyncOk(s.(client := v))
    ensures Inv(s.(client := v))
  {
    DataUnaffected(s, v);
    forall n | n in s.flights
      ensures FlightOk(s.(client := v), s.flights[n])
    {
      FlightUnaffected(s, v, s.flights[n]);
    }
  }

  lemma InvalidateStartsOver(v: View, blocked: bool)
    ensures StartsOver(v, Invalidate(v, blocked)) && StartsOver(v, ClearForSubjectChange(v, blocked))
    ensures StartsOver(v, HandleCursorReset(v))
  {
  }

  lemma LocalStepKeepsInv(s: Sys, s': Sys)
    requires Inv(s) && StepLocal(s, s')
    ensures Inv(s')
  {
    var v :| LocalMove(s.client, v) && s' == s.(client := v);
    if FlagMove(s.client, v) {
      FlagKinds(s.client, v);
      FlagsMove(s, v);
    } else {
      RestartKeepsInv(s, v);
    }
  }

  lemma RestartKeepsInv(s: Sys, v: View)
    requires Inv(s) && RestartMove(s.client, v)
    ensures Inv(s.(client := v))
  {
    hide StartsOver;
    if next :| v == Rebind(s.client, next) {
    } else {
    }
    if v != s.client {
      FeedStartsOver(s, v);
    }
  }

  ghost predicate SyncFlagsMove(v: View, w: View) {
    || (w.sync == v.sync && w.syncCount == v.syncCount)
    || (w.sync.Idle? && w.syncCount == v.syncCount)
    || (w.sync.Reading? && !w.sync.inFlight && w.sync.id == w.syncCount == v.syncCount + 1 && v.generation.Some?)
  }

  lemma FlagKinds(v: View, w: View)
    requires FlagMove(v, w)
    ensures SameProjection(v, w) && SyncFlagsMove(v, w)
  {
  }

  // ----- requests leave -----

  lemma SendKeepsInv(s: Sys, s': Sys)
    requires Inv(s) && StepSend(s, s')
    ensures Inv(s')
  {
    var n: nat, op :| n !in s.flights && MaySend(s.client, op)
      && s' == s.(client := Sent(s.client, op), flights := s.flights[n := Pending(Capture(s.client), op)]);
    var v := Sent(s.client, op);
    SendKeepsSync(s, s', n, op);
    SendKeepsClient(s, s', n, op);
    hide TablesOk, ClientOk, DataOk, SyncOk, OriginsOk, FlightOk;
    forall m | m in s'.flights
      ensures FlightOk(s', s'.flights[m])
    {
      if m == n {
        NewRequestOk(s, s', n, op);
      } else {
        FlightUnaffected(s, v, s.flights[m]);
        FlightElsewhere(s.(client := v), s', s.flights[m]);
      }
    }
  }

  lemma SendKeepsClient(s: Sys, s': Sys, n: nat, op: Op)
    requires Inv(s) && n !in s.flights && MaySend(s.client, op)
    requires s' == s.(client := Sent(s.client, op), flights := s.flights[n := Pending(Capture(s.client), op)])
    ensures SameProjection(s.client, s'.client) && ClientOk(s') && OriginsOk(s') && DataOk(s')
  {
    var v := Sent(s.client, op);
    DataUnaffected(s, v);
    DataElsewhere(s.(client := v), s');
  }

  lemma NewRequestOk(s: Sys, s': Sys, n: nat, op: Op)
    requires Inv(s) && n !in s.flights && MaySend(s.client, op)
    requires s' == s.(client := Sent(s.client, op), flights := s.flights[n := Pending(Capture(s.client), op)])
    ensures FlightOk(s', Pending(Capture(s.client), op))
  {
    if Live(s) {
      assert BaseOk(s) && CoverageOk(s);
    }
  }

  lemma SendKeepsSync(s: Sys, s': Sys, n: nat, op: Op)
    requires SyncOk(s) && n !in s.flights && MaySend(s.client, op)
    requires s' == s.(client := Sent(s.client, op), flights := s.flights[n := Pending(Capture(s.client), op)])
    ensures SyncOk(s')
  {
    forall m | m in s'.flights && s'.flights[m].op.OpChanges?
      ensures PageRequestOk(s', s'.flights[m].op.syncId, s'.flights[m].op.afterSeq)
    {
      if m != n {
        assert PageRequestOk(s, s.flights[m].op.syncId, s.flights[m].op.afterSeq);
      }
    }
    forall m, k | m in s'.flights && k in s'.flights && OfRunningSync(s', m) && OfRunningSync(s', k)
      ensures m == k
    {
      if op.OpChanges? {
        // before the request no page of this sync was out
        assert m == n || PageRequestOk(s, s.flights[m].op.syncId, s.flights[m].op.afterSeq);
        assert k == n || PageRequestOk(s, s.flights[k].op.syncId, s.flights[k].op.afterSeq);
      } else {
        assert OfRunningSync(s, m) && OfRunningSync(s, k);
      }
    }
  }

  lemma FlightElsewhere(s: Sys, s': Sys, f: Flight)
    requires FlightOk(s, f)
    requires s'.server == s.server && s'.client == s.client && s'.base == s.base && s'.baseId == s.baseId
    ensures FlightOk(s', f)
  {
    if f.op.OpOlder? && Relevant(s, f.ctx) {
      assert HeldFrom(s, f.op.beforeId);
    }
  }

  lemma LoseKeepsInv(s: Sys, s': Sys)
    requires Inv(s) && StepLose(s, s')
    ensures Inv(s')
  {
    forall m | m in s'.flights
      ensures FlightOk(s', s'.flights[m])
    {
      FlightElsewhere(s, s', s.flights[m]);
    }
    DataElsewhere(s, s');
  }

  lemma DataElsewhere(s: Sys, s': Sys)
    requires DataOk(s)
    requires s'.server == s.server && s'.client == s.client && s'.base == s.base && s'.baseId == s.baseId
    ensures DataOk(s')
  {
  }
}
