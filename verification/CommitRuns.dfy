/** Every step of a sound configuration keeps the commit invariant. */
module CommitRuns {
  import opened Messages
  import opened TwoPhaseCommit
  import opened CommitInvariant
  import opened CommitSteps
  import opened CommitManager
  import opened CommitDecisions
  import W = WorkerNode

  // ---------- what the invariant says about the message at hand ----------

  lemma JoinedNonzero(cfg: Config, s: State)
    requires Inv(cfg, s)
    ensures forall t, w :: (t, w) in s.hist.joined ==> t != 0
    ensures 0 !in s.table
  {
  }

  lemma VoteFacts(cfg: Config, s: State, t: Tid, w: NodeId)
    requires Inv(cfg, s) && (s.net[VoteCommit(t, w)] > 0 || s.net[VoteAbort(t, w)] > 0)
    ensures t != 0 && (t, w) in s.hist.joined && t in s.hist.begun && Requested(s, t)
    ensures !Committed(s, t) && (t, w) !in s.hist.counted
    ensures t in s.table ==> w in s.table[t]
  {
    assert TokenOk(s, t, w);
  }

  lemma BeginFacts(cfg: Config, s: State, t: Tid, w: NodeId)
    requires Inv(cfg, s) && s.net[Begin(t, w)] > 0
    ensures t !in s.hist.begun && t !in s.table && t != 0
  {
  }

  lemma JoinFacts(cfg: Config, s: State, t: Tid, w: NodeId)
    requires Inv(cfg, s) && s.net[Join(t, w)] > 0
    ensures (t, w) !in s.hist.joined && (t, w) !in s.hist.joinDone && t != 0
  {
  }

  lemma PollFacts(cfg: Config, s: State, t: Tid, w: NodeId)
    requires Inv(cfg, s) && s.net[Poll(t, w)] > 0
    ensures t != 0 ==> (t, w) in s.hist.joinDone
  {
    assert t != 0 ==> Tells(Poll(t, w));
  }

  lemma RequestFacts(cfg: Config, s: State, t: Tid, w: NodeId)
    requires Inv(cfg, s) && s.net[CommitReq(t, w)] > 0
    ensures !Committed(s, t)
  {
  }

  lemma TimeoutFacts(cfg: Config, s: State, t: Tid)
    requires Sound(cfg) && Inv(cfg, s) && Enabled(cfg, s, MTimeout(t))
    ensures !Committed(s, t) && (t == 0 || t in s.hist.begun)
  {
  }

  lemma RecoverFacts(cfg: Config, s: State, t: Tid)
    requires Inv(cfg, s) && Enabled(cfg, s, MRecover(t))
    ensures !Committed(s, t) && t in s.hist.begun
  {
  }

  lemma LogFacts(cfg: Config, s: State)
    requires Inv(cfg, s) && s.mmode.MLog?
    ensures var t := s.mmode.t;
      FullyVoted(s, t) && t in s.hist.begun && Requested(s, t) && !Dead(s, t)
  {
    var t := s.mmode.t;
    var w :| w in s.table[t];
    assert TokenOk(s, t, w);
    assert s.table[t][w] != 0;
  }

  /** The reply to a poll is what the log says, or nothing. */
  lemma PollJustified(cfg: Config, s: State, t: Tid, w: NodeId, stale: nat)
    requires Inv(cfg, s) && s.mmode == MServe({})
    ensures var d := Decision(s.table, s.mlog, t, stale);
      (d == DECIDE_COMMIT ==> Justified(s, t, w, true)) && (d == DECIDE_ABORT ==> Justified(s, t, w, false))
  {
    hide InvBegin, InvKnown, InvRequest, InvToken, InvDecisions, InvVotes, InvMode, MembersDecision, AllVoted;
    JoinedNonzero(cfg, s);
    if (t, w) in s.hist.joined {
      assert t in s.hist.begun;
      if t in s.table {
        assert w in s.table[t];
        DecisionLive(cfg, s, t, stale);
        if FullyVoted(s, t) { CountedIn(s, t, w); }
      }
    }
  }

  lemma CountedIn(s: State, t: Tid, w: NodeId)
    requires InvStored(s) && FullyVoted(s, t) && w in s.table[t]
    ensures (t, w) in s.hist.counted
  {
    assert s.table[t][w] != 0;
  }

  // ---------- stability ----------

  lemma JustifiedFrame(s: State, s': State)
    requires s'.mlog == s.mlog && s'.table == s.table && s'.hist == s.hist
    ensures forall t, w, c :: Justified(s', t, w, c) == Justified(s, t, w, c)
  {
  }

  lemma StableFrame(s: State, s': State)
    requires s'.mlog == s.mlog && s'.hist.begun == s.hist.begun && s.hist.counted <= s'.hist.counted
    requires s'.table.Keys <= s.table.Keys && s'.hist.joined == s.hist.joined
    requires forall t, w :: (t, w) in s.hist.joined ==> t != 0
    ensures Stable(s, s')
  {
  }

  lemma StableBegun(cfg: Config, s: State, s': State, t: Tid)
    requires Inv(cfg, s) && t !in s.hist.begun
    requires s'.mlog == s.mlog && s'.hist.begun == s.hist.begun + {t} && s.hist.counted == s'.hist.counted
    requires s'.table.Keys <= s.table.Keys + {t} && s'.hist.joined == s.hist.joined
    ensures Stable(s, s')
  {
    JoinedNonzero(cfg, s);
  }

  lemma StableJoined(cfg: Config, s: State, s': State, t: Tid, w: NodeId)
    requires Inv(cfg, s) && t != 0 && (t, w) !in s.hist.joinDone
    requires s'.mlog == s.mlog || s'.mlog == s.mlog + [MJoin(t)]
    requires s'.hist.begun == s.hist.begun && s.hist.counted == s'.hist.counted
    requires s'.table.Keys == s.table.Keys && s'.hist.joined <= s.hist.joined + {(t, w)}
    ensures Stable(s, s')
  {
    JoinedNonzero(cfg, s);
    if s'.mlog != s.mlog { AppendRecord(s, s', MJoin(t)); }
  }

  lemma StableAppend(s: State, s': State, r: MRecord)
    requires s'.mlog == s.mlog + [r] && s'.hist.begun == s.hist.begun && s'.hist.counted == s.hist.counted
    requires s'.table == s.table && s'.hist.joined == s.hist.joined
    requires forall t, w :: (t, w) in s.hist.joined ==> t != 0
    requires r.MDecide? && r.commit ==> !Dead(s, r.t)
    ensures Stable(s, s')
  {
    AppendRecord(s, s', r);
  }

  // ---------- steps of the manager ----------

  lemma BeginKeeps(cfg: Config, s: State, s': State, t: Tid, w: NodeId, reply: Msg)
    requires Inv(cfg, s) && s.mmode == MServe({}) && s.net[Begin(t, w)] > 0 && reply.BeginReply?
    requires s'.net == s.net - multiset{Begin(t, w)} + multiset{reply}
    requires s'.table == s.table || s'.table == s.table[t := map[]]
    requires s'.hist == s.hist.(begun := s.hist.begun + {t})
    requires s'.workers == s.workers && s'.mlog == s.mlog && s'.mmode == s.mmode
    ensures Inv(cfg, s')
  {
    hide InvBegin, InvJoin, InvKnown, InvRequest, InvToken, InvStored, InvLog, InvMode, InvDecisions, InvVotes, Stable;
    BeginFacts(cfg, s, t, w);
    StableBegun(cfg, s, s', t);
    BeginTaken(s, s', t, w, reply);
    JoinSlotAdded(s, s', t);
    KnownByManager(s, s');
    RequestByManager(s, s');
    TokenFrame(s, s');
    StoredSlotAdded(s, s', t);
    ManagerBegin(cfg, s, s', t);
    DecisionsByManager(s, s');
    VotesFrame(s, s');
  }

  lemma KeepsBegin(cfg: Config, s: State, t: Tid, w: NodeId, choice: bool, stale: nat)
    requires Inv(cfg, s) && s.mmode == MServe({}) && s.net[Begin(t, w)] > 0
    ensures Inv(cfg, Handle(cfg, s, Begin(t, w), choice, stale))
  {
    hide Inv;
    BeginKeeps(cfg, s, Handle(cfg, s, Begin(t, w), choice, stale), t, w, BeginReply(t, w, t !in s.table));
  }

  lemma JoinKeeps(cfg: Config, s: State, s': State, t: Tid, w: NodeId, reply: Msg, added: bool)
    requires Inv(cfg, s) && s.mmode == MServe({}) && s.net[Join(t, w)] > 0
    requires reply == JoinSuccess(t, w) || reply == JoinFail(t, w)
    requires s'.net == s.net - multiset{Join(t, w)} + multiset{reply}
    requires added ==> t in s.table
    requires s'.table == if added then s.table[t := SetVote(s.table[t], w, 0)] else s.table
    requires s'.hist == s.hist.(joinDone := s.hist.joinDone + {(t, w)},
                                joined := if added then s.hist.joined + {(t, w)} else s.hist.joined)
    requires s'.mlog == s.mlog || s'.mlog == s.mlog + [MJoin(t)]
    requires s'.workers == s.workers && s'.mmode == s.mmode
    ensures Inv(cfg, s')
  {
    hide InvBegin, InvJoin, InvKnown, InvRequest, InvToken, InvStored, InvLog, InvMode, InvDecisions, InvVotes, Stable;
    JoinFacts(cfg, s, t, w);
    if s'.mlog != s.mlog { AppendRecord(s, s', MJoin(t)); }
    StableJoined(cfg, s, s', t, w);
    BeginFrame(s, s');
    JoinTaken(s, s', t, w, reply, added);
    KnownByManager(s, s');
    RequestByManager(s, s');
    TokenFrame(s, s');
    if added { StoredJoined(s, s', t, w); } else { StoredFrame(s, s'); }
    ManagerJoin(cfg, s, s', t, w, added);
    DecisionsByManager(s, s');
    VotesFrame(s, s');
  }

  lemma KeepsJoin(cfg: Config, s: State, t: Tid, w: NodeId, choice: bool, stale: nat)
    requires Inv(cfg, s) && s.mmode == MServe({}) && s.net[Join(t, w)] > 0
    ensures Inv(cfg, Handle(cfg, s, Join(t, w), choice, stale))
  {
    hide Inv;
    var reply := if t in s.table && choice then JoinSuccess(t, w) else JoinFail(t, w);
    JoinKeeps(cfg, s, Handle(cfg, s, Join(t, w), choice, stale), t, w, reply,
              t in s.table && choice && |s.table[t]| < MAX_NODES);
  }

  lemma KeepsCommitReq(cfg: Config, s: State, t: Tid, w: NodeId, choice: bool, stale: nat)
    requires Inv(cfg, s) && s.mmode == MServe({}) && s.net[CommitReq(t, w)] > 0
    ensures Inv(cfg, Handle(cfg, s, CommitReq(t, w), choice, stale))
  {
    var s' := Handle(cfg, s, CommitReq(t, w), choice, stale);
    JoinedNonzero(cfg, s);
    RequestFacts(cfg, s, t, w);
    hide InvBegin, InvJoin, InvKnown, InvRequest, InvToken, InvStored, InvLog, InvMode, InvDecisions, InvVotes, Stable;
    StableAppend(s, s', MCommitReq(t));
    BeginFrame(s, s');
    JoinFrame(s, s');
    KnownByManager(s, s');
    RequestTaken(s, s', t, w);
    TokenAsked(s, s', t, w);
    StoredFrame(s, s');
    ManagerAsk(cfg, s, s', t);
    DecisionsByManager(s, s');
    VotesFrame(s, s');
  }

  /** The message is consumed and a reply may be sent; nothing else changes. */
  lemma ReplyKeeps(cfg: Config, s: State, s': State, m: Msg, reply: multiset<Msg>)
    requires Inv(cfg, s) && s.net[m] > 0 && s'.net == s.net - multiset{m} + reply
    requires forall r: Msg :: reply[r] > 0 ==> r.Decide? && Justified(s, r.t, r.w, r.commit) && KnownTid(s.hist.joinDone, r.t, r.w)
    requires s' == s.(net := s'.net)
    ensures Inv(cfg, s')
  {
    hide InvBegin, InvJoin, InvKnown, InvRequest, InvToken, InvStored, InvLog, InvMode, InvDecisions, InvVotes, Stable, Justified;
    JoinedNonzero(cfg, s);
    StableFrame(s, s');
    JustifiedFrame(s, s');
    BeginFrame(s, s');
    JoinFrame(s, s');
    KnownByManager(s, s');
    RequestByManager(s, s');
    TokenFrame(s, s');
    StoredFrame(s, s');
    ManagerFrame(cfg, s, s');
    DecisionsByManager(s, s');
    VotesFrame(s, s');
  }

  lemma KeepsPoll(cfg: Config, s: State, t: Tid, w: NodeId, choice: bool, stale: nat)
    requires Sound(cfg) && Inv(cfg, s) && s.mmode == MServe({}) && s.net[Poll(t, w)] > 0
    ensures Inv(cfg, Handle(cfg, s, Poll(t, w), choice, stale))
  {
    hide Inv, Decision, Justified;
    PollJustified(cfg, s, t, w, stale);
    PollFacts(cfg, s, t, w);
    var d := Decision(s.table, s.mlog, t, stale);
    var reply := if d == DECIDE_COMMIT then multiset{Decide(t, w, true)}
                 else if d == DECIDE_ABORT then multiset{Decide(t, w, false)} else multiset{};
    var s' := Handle(cfg, s, Poll(t, w), choice, stale);
    assert s'.net == s.net - multiset{Poll(t, w)} + reply;
    ReplyKeeps(cfg, s, s', Poll(t, w), reply);
  }

  lemma VoteKeeps(cfg: Config, s: State, s': State, t: Tid, w: NodeId)
    requires Inv(cfg, s) && s.mmode == MServe({}) && s.net[VoteCommit(t, w)] > 0 && t in s.table
    requires s'.net == s.net - multiset{VoteCommit(t, w)}
    requires s'.table == StoreVote(s.table, t, w, VOTE_COMMIT)
    requires s'.hist == s.hist.(counted := s.hist.counted + {(t, w)})
    requires s'.mmode == if FullyVoted(s', t) then MLog(t) else MServe({})
    requires s'.mlog == s.mlog && s'.workers == s.workers
    ensures Inv(cfg, s')
  {
    hide InvBegin, InvJoin, InvKnown, InvRequest, InvToken, InvStored, InvLog, InvMode, InvDecisions, InvVotes, Stable;
    JoinedNonzero(cfg, s);
    VoteFacts(cfg, s, t, w);
    StableFrame(s, s');
    BeginFrame(s, s');
    JoinFrame(s, s');
    KnownByManager(s, s');
    RequestByManager(s, s');
    TokenVoted(s, s', t, w);
    StoredVote(s, s', t, w);
    ManagerVote(cfg, s, s', t, w);
    DecisionsByManager(s, s');
    VotesFrame(s, s');
  }

  /** What collectVote returns right after the vote was stored. */
  lemma VoteDecision(cfg: Config, s: State, t: Tid, w: NodeId, stale: nat)
    requires InvStored(s) && t != 0 && t in s.table && w in s.table[t]
    ensures var table := StoreVote(s.table, t, w, VOTE_COMMIT);
      t in table && Decision(table, s.mlog, t, stale) == if AllVoted(table[t]) then DECIDE_COMMIT else WAIT
  {
    var table := StoreVote(s.table, t, w, VOTE_COMMIT);
    assert table[t][w] == VOTE_COMMIT;
    assert table[t] != map[];
  }

  lemma KeepsVoteCommit(cfg: Config, s: State, t: Tid, w: NodeId, choice: bool, stale: nat)
    requires Sound(cfg) && Inv(cfg, s) && s.mmode == MServe({}) && s.net[VoteCommit(t, w)] > 0
    ensures Inv(cfg, Handle(cfg, s, VoteCommit(t, w), choice, stale))
  {
    hide Inv, Handle;
    if t in s.table { KeepsLiveVote(cfg, s, t, w, choice, stale); } else { KeepsLateVote(cfg, s, t, w, choice, stale); }
  }

  /** What handling a vote that gets no reply comes to. */
  lemma VoteHandled(cfg: Config, s: State, t: Tid, w: NodeId, choice: bool, stale: nat)
    requires s.mmode == MServe({}) && t in s.table && w in s.table[t]
    requires var d := Decision(StoreVote(s.table, t, w, VOTE_COMMIT), s.mlog, t, stale); d == DECIDE_COMMIT || d == WAIT
    ensures var d := Decision(StoreVote(s.table, t, w, VOTE_COMMIT), s.mlog, t, stale);
      Handle(cfg, s, VoteCommit(t, w), choice, stale) ==
        s.(net := s.net - multiset{VoteCommit(t, w)}, table := StoreVote(s.table, t, w, VOTE_COMMIT),
           hist := s.hist.(counted := s.hist.counted + {(t, w)}), mmode := if d == DECIDE_COMMIT then MLog(t) else MServe({}))
  {
    hide Decision, StoreVote;
  }

  lemma KeepsLiveVote(cfg: Config, s: State, t: Tid, w: NodeId, choice: bool, stale: nat)
    requires Sound(cfg) && Inv(cfg, s) && s.mmode == MServe({}) && s.net[VoteCommit(t, w)] > 0 && t in s.table
    ensures Inv(cfg, Handle(cfg, s, VoteCommit(t, w), choice, stale))
  {
    hide Inv, InvStored, Decision, Handle, FullyVoted, StoreVote;
    VoteFacts(cfg, s, t, w);
    StoredIn(cfg, s);
    VoteDecision(cfg, s, t, w, stale);
    VoteHandled(cfg, s, t, w, choice, stale);
    var s' := Handle(cfg, s, VoteCommit(t, w), choice, stale);
    FullNow(s, s', t, w);
    VoteKeeps(cfg, s, s', t, w);
  }

  lemma StoredIn(cfg: Config, s: State)
    requires Inv(cfg, s)
    ensures InvStored(s)
  {
  }

  lemma FullNow(s: State, s': State, t: Tid, w: NodeId)
    requires t in s.table && w in s.table[t] && s'.table == StoreVote(s.table, t, w, VOTE_COMMIT)
    ensures t in s'.table && (FullyVoted(s', t) <==> AllVoted(s'.table[t]))
  {
    assert w in s'.table[t];
  }

  lemma KeepsLateVote(cfg: Config, s: State, t: Tid, w: NodeId, choice: bool, stale: nat)
    requires Sound(cfg) && Inv(cfg, s) && s.mmode == MServe({}) && s.net[VoteCommit(t, w)] > 0 && t !in s.table
    ensures Inv(cfg, Handle(cfg, s, VoteCommit(t, w), choice, stale))
  {
    VoteFacts(cfg, s, t, w);
    VoteKnown(cfg, s, t, w);
    hide Inv, MembersDecision;
    ReplyKeeps(cfg, s, Handle(cfg, s, VoteCommit(t, w), choice, stale), VoteCommit(t, w), multiset{Decide(t, w, false)});
  }

  lemma VoteKnown(cfg: Config, s: State, t: Tid, w: NodeId)
    requires Inv(cfg, s) && s.net[VoteCommit(t, w)] > 0
    ensures KnownTid(s.hist.joinDone, t, w)
  {
    assert Tells(VoteCommit(t, w)) || t == 0;
  }

  lemma CommitKeeps(cfg: Config, s: State, s': State, t: Tid)
    requires Sound(cfg) && Inv(cfg, s) && s.mmode == MLog(t)
    requires s' == s.(mlog := s.mlog + [MDecide(t, true)], mmode := MTell(t, true, MemberSet(s.table, t), {}, false))
    ensures Inv(cfg, s')
  {
    hide InvBegin, InvJoin, InvKnown, InvRequest, InvToken, InvStored, InvLog, InvMode, InvDecisions, InvVotes, Stable, MemberSet;
    JoinedNonzero(cfg, s);
    LogFacts(cfg, s);
    AppendRecord(s, s', MDecide(t, true));
    StableAppend(s, s', MDecide(t, true));
    BeginFrame(s, s');
    JoinFrame(s, s');
    KnownByManager(s, s');
    RequestByManager(s, s');
    TokenCommitted(s, s', t);
    StoredFrame(s, s');
    ManagerCommit(cfg, s, s', t);
    DecisionsByManager(s, s');
    VotesFrame(s, s');
  }

  /** DECIDE_ABORT appended by a timeout or a restart. */
  lemma AbortKeeps(cfg: Config, s: State, s': State, t: Tid)
    requires Inv(cfg, s) && s.mmode.MServe? && !Committed(s, t) && (t == 0 || t in s.hist.begun)
    requires s'.mlog == s.mlog + [MDecide(t, false)]
    requires s'.mmode == MTell(t, false, MemberSet(s.table, t), s.mmode.todo - {t}, false)
    requires s'.table == s.table && s'.hist == s.hist && s'.workers == s.workers && s'.net == s.net
    ensures Inv(cfg, s')
  {
    hide InvBegin, InvJoin, InvKnown, InvRequest, InvToken, InvStored, InvLog, InvMode, InvDecisions, InvVotes, Stable;
    JoinedNonzero(cfg, s);
    AppendRecord(s, s', MDecide(t, false));
    StableAppend(s, s', MDecide(t, false));
    BeginFrame(s, s');
    JoinFrame(s, s');
    KnownByManager(s, s');
    RequestByManager(s, s');
    TokenFrame(s, s');
    StoredFrame(s, s');
    ManagerAbort(cfg, s, s', t);
    DecisionsByManager(s, s');
    VotesFrame(s, s');
  }

  lemma VoteAbortSteps(cfg: Config, s: State, s1: State, t: Tid, w: NodeId, choice: bool, stale: nat)
    requires s1 == s.(net := s.net - multiset{VoteAbort(t, w)}) && s.mmode == MServe({})
    ensures Committed(s1, t) == Committed(s, t)
    ensures Handle(cfg, s, VoteAbort(t, w), choice, stale) ==
      s1.(mlog := s1.mlog + [MDecide(t, false)], mmode := MTell(t, false, MemberSet(s1.table, t), s1.mmode.todo - {t}, false))
  {
    assert s1.mmode.todo - {t} == {};
  }

  /** A vote against the transaction: the message is consumed, then DECIDE_ABORT appended. */
  lemma KeepsVoteAbort(cfg: Config, s: State, t: Tid, w: NodeId, choice: bool, stale: nat)
    requires Inv(cfg, s) && s.mmode == MServe({}) && s.net[VoteAbort(t, w)] > 0
    ensures Inv(cfg, Handle(cfg, s, VoteAbort(t, w), choice, stale))
  {
    hide Inv, Committed, Handle, MemberSet;
    VoteFacts(cfg, s, t, w);
    var s1 := s.(net := s.net - multiset{VoteAbort(t, w)});
    ReplyKeeps(cfg, s, s1, VoteAbort(t, w), multiset{});
    VoteAbortSteps(cfg, s, s1, t, w, choice, stale);
    AbortKeeps(cfg, s1, Handle(cfg, s, VoteAbort(t, w), choice, stale), t);
  }

  /** PREPARE_COMMIT or the decision goes out to one member. */
  lemma SendKeeps(cfg: Config, s: State, s': State, w: NodeId, m: Msg)
    requires Inv(cfg, s) && (s.mmode.MAsk? || s.mmode.MTell?) && w in s.mmode.pending
    requires m == if s.mmode.MAsk? then Prepare(s.mmode.t, w) else Decide(s.mmode.t, w, s.mmode.commit)
    requires s' == s.(net := s.net + multiset{m}, mmode := s.mmode.(pending := s.mmode.pending - {w}))
    ensures Inv(cfg, s')
  {
    hide InvBegin, InvJoin, InvKnown, InvRequest, InvToken, InvStored, InvLog, InvMode, InvDecisions, InvVotes, Stable, Justified;
    JoinedNonzero(cfg, s);
    SendFacts(cfg, s, w);
    StableFrame(s, s');
    JustifiedFrame(s, s');
    BeginFrame(s, s');
    JoinFrame(s, s');
    KnownByManager(s, s');
    RequestByManager(s, s');
    TokenFrame(s, s');
    StoredFrame(s, s');
    ManagerSend(cfg, s, s', w);
    DecisionsByManager(s, s');
    VotesFrame(s, s');
  }

  lemma SendFacts(cfg: Config, s: State, w: NodeId)
    requires Inv(cfg, s) && (s.mmode.MAsk? || s.mmode.MTell?) && w in s.mmode.pending
    ensures (s.mmode.t, w) in s.hist.joinDone
    ensures s.mmode.MTell? ==> Justified(s, s.mmode.t, w, s.mmode.commit)
  {
    assert s.mmode.t in s.table && w in s.table[s.mmode.t];
    assert (s.mmode.t, w) in s.hist.joined;
  }

  /** The manager leaves its mode; transactions may be cleaned from the table. */
  lemma LeaveKeeps(cfg: Config, s: State, s': State)
    requires Inv(cfg, s) && InvLog(cfg, s') && InvMode(s')
    requires s' == s.(mmode := s'.mmode, table := s'.table)
    requires !s'.mmode.MAsk?
    requires forall t :: t in s'.table ==> t in s.table && s'.table[t] == s.table[t]
    ensures Inv(cfg, s')
  {
    hide InvBegin, InvJoin, InvKnown, InvRequest, InvToken, InvStored, InvLog, InvMode, InvDecisions, InvVotes, Stable;
    JoinedNonzero(cfg, s);
    StableFrame(s, s');
    BeginFrame(s, s');
    JoinFrame(s, s');
    KnownByManager(s, s');
    RequestByManager(s, s');
    TokenFrame(s, s');
    StoredFrame(s, s');
    DecisionsByManager(s, s');
    VotesFrame(s, s');
  }

  lemma KeepsWorker(cfg: Config, s: State, w: NodeId, step: W.Step)
    requires Inv(cfg, s) && Enabled(cfg, s, WorkerStep(w, step))
    ensures Inv(cfg, WorkerNext(s, w, step))
  {
    hide InvBegin, InvJoin, InvKnown, InvRequest, InvToken, InvStored, InvLog, InvMode, InvDecisions, InvVotes, Stable;
    var s' := WorkerNext(s, w, step);
    BeginByWorker(s, w, step);
    JoinByWorker(s, w, step);
    KnownByWorker(s, w, step);
    RequestByWorker(s, w, step);
    TokenByWorker(s, w, step);
    StoredByWorker(s, w, step);
    ManagerFrame(cfg, s, s');
    DecisionsByWorker(s, w, step);
    VotesByWorker(s, w, step);
  }

  lemma KeepsReceive(cfg: Config, s: State, m: Msg, choice: bool, stale: nat)
    requires Sound(cfg) && Inv(cfg, s) && s.mmode == MServe({}) && s.net[m] > 0 && m.ToManager()
    ensures Inv(cfg, Handle(cfg, s, m, choice, stale))
  {
    hide Inv, Handle;
    match m
    case Begin(t, w) => KeepsBegin(cfg, s, t, w, choice, stale);
    case Join(t, w) => KeepsJoin(cfg, s, t, w, choice, stale);
    case CommitReq(t, w) => KeepsCommitReq(cfg, s, t, w, choice, stale);
    case VoteCommit(t, w) => KeepsVoteCommit(cfg, s, t, w, choice, stale);
    case VoteAbort(t, w) => KeepsVoteAbort(cfg, s, t, w, choice, stale);
    case Poll(t, w) => KeepsPoll(cfg, s, t, w, choice, stale);
  }

  lemma KeepsLeave(cfg: Config, s: State, l: Label)
    requires Inv(cfg, s) && Enabled(cfg, s, l) && (l.MFinish? || l.MCrash? || l.MCodedCrash? || l.MRestart?)
    ensures Inv(cfg, Next(cfg, s, l))
  {
    hide InvBegin, InvJoin, InvKnown, InvRequest, InvToken, InvStored, InvLog, InvDecisions, InvVotes;
    var s' := Next(cfg, s, l);
    if l.MFinish? && s.mmode.MAsk? {
      ManagerAsked(cfg, s, s');
    } else if l.MFinish? || l.MCodedCrash? {
      ManagerClean(cfg, s, s');
    } else if l.MCrash? {
      ManagerCrash(cfg, s, s');
    } else {
      ManagerRestart(cfg, s, s');
    }
    LeaveKeeps(cfg, s, s');
  }

  lemma {:induction false} StepKeeps(cfg: Config, s: State, l: Label)
    requires Sound(cfg) && Inv(cfg, s) && Enabled(cfg, s, l)
    ensures Inv(cfg, Next(cfg, s, l))
  {
    hide Inv, Handle, WorkerNext;
    match l
    case WorkerStep(w, step) => KeepsWorker(cfg, s, w, step);
    case Lose(m) => ReplyKeeps(cfg, s, Next(cfg, s, l), m, multiset{});
    case MRecv(m, choice, stale) => KeepsReceive(cfg, s, m, choice, stale);
    case MAppendCommit => CommitKeeps(cfg, s, Next(cfg, s, l), s.mmode.t);
    case MSendOne(w) =>
      SendKeeps(cfg, s, Next(cfg, s, l), w,
                if s.mmode.MAsk? then Prepare(s.mmode.t, w) else Decide(s.mmode.t, w, s.mmode.commit));
    case MTimeout(t) =>
      TimeoutFacts(cfg, s, t);
      AbortKeeps(cfg, s, Next(cfg, s, l), t);
    case MRecover(t) =>
      RecoverFacts(cfg, s, t);
      AbortKeeps(cfg, s, Next(cfg, s, l), t);
    case _ => KeepsLeave(cfg, s, l);
  }

  lemma {:induction false} RunKeeps(cfg: Config, s: State, ls: seq<Label>)
    requires Sound(cfg) && Inv(cfg, s) && ValidRun(cfg, s, ls)
    ensures Inv(cfg, Exec(cfg, s, ls))
    decreases ls
  {
    if ls != [] {
      StepKeeps(cfg, s, ls[0]);
      hide Inv, Next, Enabled;
      RunKeeps(cfg, Next(cfg, s, ls[0]), ls[1..]);
    }
  }

  lemma ReachableInv(cfg: Config, s: State)
    requires Sound(cfg) && Reachable(cfg, s)
    ensures Inv(cfg, s)
  {
    var s0: State, ls: seq<Label> :| Init(cfg, s0) && ValidRun(cfg, s0, ls) && Exec(cfg, s0, ls) == s;
    InitInv(cfg, s0);
    hide Inv, Init;
    RunKeeps(cfg, s0, ls);
  }
}
