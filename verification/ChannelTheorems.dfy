/** Theorems about every run of the channel protocol: convergence of overlapping updates,
    broadcastability, recorded revocations, and position-by-position agreement of updates
    that run one at a time. */
module ChannelTheorems {
  import opened Ledger
  import opened Revocation
  import opened ChannelState
  import opened ChannelSystem

  lemma MultisetOfConcat(a: seq<Transaction>, b: seq<Transaction>, tx: Transaction)
    ensures multiset(a + b)[tx] == multiset(a)[tx] + multiset(b)[tx]
  {
    assert multiset(a + b) == multiset(a) + multiset(b);
  }

  /** The list entries and states two parties gain in a step. */
  datatype Gain = Gain(mine: seq<Transaction>, theirs: seq<Transaction>, state: nat)

  ghost predicate Gains(p: Party, p': Party, g: Gain) {
    && Grown(p, p')
    && p'.mine == p.mine + g.mine && p'.theirs == p.theirs + g.theirs && p'.state == p.state + g.state
  }

  /** Replacing an update keeps a party in agreement when it settles what the lists gain. */
  lemma AgreeReplaced(p: Party, p': Party, q: Party, q': Party, r: Role, g: Gain, h: Gain,
                      us: seq<Update>, finished: nat, k: nat, v: Update)
    requires Agree(p, q, r, us, finished) && k < |us| && Gains(p, p', g) && Gains(q, q', h)
    requires forall tx :: multiset(g.mine)[tx] + Owes(r, tx)(v) == multiset(h.theirs)[tx] + Owes(r, tx)(us[k])
    requires g.state + Ahead(r)(us[k]) == Ahead(r)(v)
    ensures Agree(p', q', r, us[k := v], finished)
  {
    forall tx ensures multiset(p'.mine)[tx] + SumOf(us[k := v], Owes(r, tx)) == multiset(q'.theirs)[tx] {
      MultisetOfConcat(p.mine, g.mine, tx);
      MultisetOfConcat(q.theirs, h.theirs, tx);
      SumReplaced(us, k, v, Owes(r, tx));
    }
    SumReplaced(us, k, v, Ahead(r));
  }

  lemma AgreeDropped(p: Party, p': Party, q: Party, q': Party, r: Role, us: seq<Update>, finished: nat, k: nat)
    requires Agree(p, q, r, us, finished) && k < |us| && us[k].phase.KeyReturned?
    requires p'.mine == p.mine && q'.theirs == q.theirs && p'.state + Ahead(r)(us[k]) == p.state + 1
    ensures Agree(p', q', r, Drop(us, k), finished + 1)
  {
    forall tx ensures SumOf(Drop(us, k), Owes(r, tx)) == SumOf(us, Owes(r, tx)) { SumDropped(us, k, Owes(r, tx)); }
    SumDropped(us, k, Ahead(r));
  }

  lemma AgreeAppended(p: Party, p': Party, q: Party, q': Party, r: Role, us: seq<Update>, finished: nat, v: Update)
    requires Agree(p, q, r, us, finished) && v.phase.Requested?
    requires p'.mine == p.mine && q'.theirs == q.theirs && p'.state == p.state
    ensures Agree(p', q', r, us + [v], finished)
  {
    forall tx ensures SumOf(us + [v], Owes(r, tx)) == SumOf(us, Owes(r, tx)) { SumAppended(us, v, Owes(r, tx)); }
    SumAppended(us, v, Ahead(r));
  }

  /** A step in which update `k` becomes `v`: the initiator gains `g`, the responder `h`. */
  ghost predicate Replaces(s: System, t: System, k: nat, v: Update, g: Gain, h: Gain) {
    && k < |s.inFlight| && t.inFlight == s.inFlight[k := v] && t.finished == s.finished
    && v.initiator == s.inFlight[k].initiator
    && Gains(s.At(v.initiator), t.At(v.initiator), g) && Gains(s.At(Other(v.initiator)), t.At(Other(v.initiator)), h)
  }

  /** The step settles what it adds to the lists and states, and adds only signed entries. */
  ghost predicate Settles(u: Update, v: Update, g: Gain, h: Gain, me: SecretKey, them: SecretKey) {
    var i, j := v.initiator, Other(v.initiator);
    && (forall tx :: multiset(g.mine)[tx] + Owes(i, tx)(v) == multiset(h.theirs)[tx] + Owes(i, tx)(u))
    && (forall tx :: multiset(h.mine)[tx] + Owes(j, tx)(v) == multiset(g.theirs)[tx] + Owes(j, tx)(u))
    && g.state + Ahead(i)(u) == Ahead(i)(v) && h.state + Ahead(j)(u) == Ahead(j)(v)
    && (forall tx :: tx in g.mine ==> SignedBy(tx, them)) && (forall tx :: tx in h.mine ==> SignedBy(tx, me))
  }

  lemma OthersStaySane(s: System, t: System, k: nat)
    requires AllSane(s) && k < |s.inFlight| && Grown(s.alice, t.alice) && Grown(s.bob, t.bob)
    requires t.inFlight == Drop(s.inFlight, k) ||
             (|t.inFlight| == |s.inFlight| && t.inFlight == s.inFlight[k := t.inFlight[k]]
              && Sane(t.At(t.inFlight[k].initiator), t.At(Other(t.inFlight[k].initiator)), t.inFlight[k]))
    ensures AllSane(t)
  {
    forall i | 0 <= i < |t.inFlight|
      ensures Sane(t.At(t.inFlight[i].initiator), t.At(Other(t.inFlight[i].initiator)), t.inFlight[i])
    {
      if !(|t.inFlight| == |s.inFlight| && i == k) {
        var u := s.inFlight[if i < k || |t.inFlight| == |s.inFlight| then i else i + 1];
        assert t.inFlight[i] == u;
        SaneStays(s.At(u.initiator), t.At(u.initiator), s.At(Other(u.initiator)), t.At(Other(u.initiator)), u);
      }
    }
  }

  lemma ReplacingKeepsInv(s: System, t: System, k: nat, v: Update, g: Gain, h: Gain)
    requires Inv(s) && Replaces(s, t, k, v, g, h)
    requires Settles(s.inFlight[k], v, g, h, s.At(v.initiator).id, s.At(Other(v.initiator)).id)
    requires Sane(t.At(v.initiator), t.At(Other(v.initiator)), v)
    ensures Inv(t)
  {
    var i, j := v.initiator, Other(v.initiator);
    AgreeReplaced(s.At(i), t.At(i), s.At(j), t.At(j), i, g, h, s.inFlight, s.finished, k, v);
    AgreeReplaced(s.At(j), t.At(j), s.At(i), t.At(i), j, h, g, s.inFlight, s.finished, k, v);
    OthersStaySane(s, t, k);
  }

  lemma BeginKeepsSane(s: System, t: System, v: Update)
    requires AllSane(s) && Grown(s.alice, t.alice) && Grown(s.bob, t.bob)
    requires t.inFlight == s.inFlight + [v] && v.phase.Requested? && |v.tx.outputs| >= 2
    ensures AllSane(t)
  {
    forall i | 0 <= i < |t.inFlight|
      ensures Sane(t.At(t.inFlight[i].initiator), t.At(Other(t.inFlight[i].initiator)), t.inFlight[i])
    {
      if i < |s.inFlight| {
        var u := s.inFlight[i];
        SaneStays(s.At(u.initiator), t.At(u.initiator), s.At(Other(u.initiator)), t.At(Other(u.initiator)), u);
      }
    }
  }

  lemma StepBegin(s: System, role: Role, tx: Transaction, key: Option<SecretKey>)
    requires Inv(s) && Honest(s, Begin(role, tx, key))
    ensures Inv(Next(s, Begin(role, tx, key)))
  {
    var t := Next(s, Begin(role, tx, key));
    var v := Update(role, tx, Requested);
    AgreeAppended(s.alice, t.alice, s.bob, t.bob, Alice, s.inFlight, s.finished, v);
    AgreeAppended(s.bob, t.bob, s.alice, t.alice, Bob, s.inFlight, s.finished, v);
    BeginKeepsSane(s, t, v);
  }

  lemma CountersignGains(p: Party, initiator: SecretKey, tx: Transaction, revKey: SecretKey)
    requires |tx.outputs| >= 2 && p.counterParty == Pub(initiator)
    ensures var (q, signed, own) := Countersign(p, tx, revKey);
      && Gains(p, q, Gain([], [signed], 0))
      && SignedBy(signed, p.id) && signed.Hash() == tx.Hash()
      && own.Hash() in q.myKeys && Revocable(q, own, q.myKeys[own.Hash()])
      && Answers(!p.funder, initiator, tx, own)
  {
    SignKeepsHash(tx, p.id);
    AnswerPaysBoth(p, initiator, Sign(tx, p.id), revKey);
  }

  lemma SettleRequested(u: Update, signed: Transaction, own: Transaction, me: SecretKey, them: SecretKey)
    requires u.phase.Requested?
    ensures Settles(u, u.(phase := Countersigned(signed, own)), Gain([], [], 0), Gain([], [signed], 0), me, them)
  {
  }

  lemma RequestedReplaces(s: System, k: nat, revKey: SecretKey)
    requires Paired(s) && k < |s.inFlight| && s.inFlight[k].phase.Requested? && HasCoins(s.inFlight[k])
    ensures var u, t := s.inFlight[k], Next(s, Advance(k, revKey));
      var (_, signed, own) := Countersign(s.At(Other(u.initiator)), u.tx, revKey);
      var v := u.(phase := Countersigned(signed, own));
      && Replaces(s, t, k, v, Gain([], [], 0), Gain([], [signed], 0)) && signed.Hash() == u.tx.Hash()
      && Sane(t.At(v.initiator), t.At(Other(v.initiator)), v)
  {
    var u := s.inFlight[k];
    CountersignGains(s.At(Other(u.initiator)), s.At(u.initiator).id, u.tx, revKey);
  }

  lemma StepRequested(s: System, k: nat, revKey: SecretKey)
    requires Inv(s) && k < |s.inFlight| && s.inFlight[k].phase.Requested? && HasCoins(s.inFlight[k])
    ensures Inv(Next(s, Advance(k, revKey)))
  {
    var u := s.inFlight[k];
    var me, them := s.At(u.initiator), s.At(Other(u.initiator));
    var (q, signed, own) := Countersign(them, u.tx, revKey);
    RequestedReplaces(s, k, revKey);
    SettleRequested(u, signed, own, me.id, them.id);
    ReplacingKeepsInv(s, Next(s, Advance(k, revKey)), k, u.(phase := Countersigned(signed, own)),
                      Gain([], [], 0), Gain([], [signed], 0));
  }

  lemma ExchangeGains(p: Party, tx: Transaction, signed: Transaction, own: Transaction)
    ensures var (q, theirs, key) := Exchange(p, tx, signed, own);
      && Gains(p, q, Gain([signed], [theirs], 0)) && signed in q.mine
      && SignedBy(theirs, p.id) && theirs.Hash() == own.Hash() && theirs.outputs == own.outputs
  {
    SignKeepsHash(own, p.id);
  }

  lemma SettleCountersigned(u: Update, theirs: Transaction, key: Option<SecretKey>, me: SecretKey, them: SecretKey)
    requires u.phase.Countersigned? && SignedBy(u.phase.signed, them)
    ensures Settles(u, u.(phase := KeySent(u.phase.signed, theirs, key)), Gain([u.phase.signed], [theirs], 0),
                    Gain([], [], 0), me, them)
  {
  }

  lemma CountersignedReplaces(s: System, k: nat, revKey: SecretKey)
    requires k < |s.inFlight| && s.inFlight[k].phase.Countersigned? && HasCoins(s.inFlight[k])
    requires var u := s.inFlight[k]; Sane(s.At(u.initiator), s.At(Other(u.initiator)), u)
    ensures var u, t := s.inFlight[k], Next(s, Advance(k, revKey));
      var (_, theirs, key) := Exchange(s.At(u.initiator), u.tx, u.phase.signed, u.phase.own);
      var v := u.(phase := KeySent(u.phase.signed, theirs, key));
      && Replaces(s, t, k, v, Gain([u.phase.signed], [theirs], 0), Gain([], [], 0))
      && Sane(t.At(v.initiator), t.At(Other(v.initiator)), v)
  {
    var u := s.inFlight[k];
    ExchangeGains(s.At(u.initiator), u.tx, u.phase.signed, u.phase.own);
  }

  lemma StepCountersigned(s: System, k: nat, revKey: SecretKey)
    requires Inv(s) && k < |s.inFlight| && s.inFlight[k].phase.Countersigned? && HasCoins(s.inFlight[k])
    ensures Inv(Next(s, Advance(k, revKey)))
  {
    var u := s.inFlight[k];
    var me, them := s.At(u.initiator), s.At(Other(u.initiator));
    var (p, theirs, key) := Exchange(me, u.tx, u.phase.signed, u.phase.own);
    CountersignedReplaces(s, k, revKey);
    SettleCountersigned(u, theirs, key, me.id, them.id);
    ReplacingKeepsInv(s, Next(s, Advance(k, revKey)), k, u.(phase := KeySent(u.phase.signed, theirs, key)),
                      Gain([u.phase.signed], [theirs], 0), Gain([], [], 0));
  }

  lemma RevealGains(p: Party, own: Transaction, key: Option<SecretKey>)
    requires own.Hash() in p.myKeys && Revocable(p, own, p.myKeys[own.Hash()])
    ensures var (q, reply) := Reveal(p, own, key);
      && Gains(p, q, Gain([own], [], 1)) && own in q.mine && reply == Some(Some(p.myKeys[own.Hash()]))
  {
  }

  lemma SettleKeySent(u: Update, revealed: Option<SecretKey>, me: SecretKey, them: SecretKey)
    requires u.phase.KeySent? && SignedBy(u.phase.own, me)
    ensures Settles(u, u.(phase := KeyReturned(u.phase.own, revealed)), Gain([], [], 0), Gain([u.phase.own], [], 1),
                    me, them)
  {
  }

  lemma StepKeySent(s: System, k: nat, revKey: SecretKey)
    requires Inv(s) && k < |s.inFlight| && s.inFlight[k].phase.KeySent? && HasCoins(s.inFlight[k])
    ensures Inv(Next(s, Advance(k, revKey)))
  {
    var u := s.inFlight[k];
    var me, them := s.At(u.initiator), s.At(Other(u.initiator));
    KeySentReplaces(s, k, revKey);
    var reply := Reveal(them, u.phase.own, u.phase.key).1;
    SettleKeySent(u, reply.value, me.id, them.id);
    ReplacingKeepsInv(s, Next(s, Advance(k, revKey)), k, u.(phase := KeyReturned(u.phase.own, reply.value)),
                      Gain([], [], 0), Gain([u.phase.own], [], 1));
  }

  lemma KeySentReplaces(s: System, k: nat, revKey: SecretKey)
    requires k < |s.inFlight| && s.inFlight[k].phase.KeySent? && HasCoins(s.inFlight[k])
    requires var u := s.inFlight[k]; Sane(s.At(u.initiator), s.At(Other(u.initiator)), u)
    ensures var u, t := s.inFlight[k], Next(s, Advance(k, revKey));
      var reply := Reveal(s.At(Other(u.initiator)), u.phase.own, u.phase.key).1;
      && reply.Some?
      && (var v := u.(phase := KeyReturned(u.phase.own, reply.value));
          && Replaces(s, t, k, v, Gain([], [], 0), Gain([u.phase.own], [], 1))
          && Sane(t.At(v.initiator), t.At(Other(v.initiator)), v))
  {
    var u := s.inFlight[k];
    RevealGains(s.At(Other(u.initiator)), u.phase.own, u.phase.key);
  }

  lemma StepKeyReturned(s: System, k: nat, revKey: SecretKey)
    requires Inv(s) && k < |s.inFlight| && s.inFlight[k].phase.KeyReturned? && HasCoins(s.inFlight[k])
    ensures Inv(Next(s, Advance(k, revKey)))
  {
    var t := Next(s, Advance(k, revKey));
    AgreeDropped(s.alice, t.alice, s.bob, t.bob, Alice, s.inFlight, s.finished, k);
    AgreeDropped(s.bob, t.bob, s.alice, t.alice, Bob, s.inFlight, s.finished, k);
    OthersStaySane(s, t, k);
  }

  lemma StepKeepsInv(s: System, e: Event)
    requires Inv(s) && Honest(s, e)
    ensures (e.Advance? ==> HasCoins(s.inFlight[e.k])) && Inv(Next(s, e))
  {
    HonestMeansSane(s, e);
    if e.Begin? {
      StepBegin(s, e.role, e.tx, e.key);
    } else {
      match s.inFlight[e.k].phase
      case Requested => StepRequested(s, e.k, e.revKey);
      case Countersigned(_, _) => StepCountersigned(s, e.k, e.revKey);
      case KeySent(_, _, _) => StepKeySent(s, e.k, e.revKey);
      case KeyReturned(_, _) => StepKeyReturned(s, e.k, e.revKey);
    }
  }

  /** `t` is reached from `s` by honest steps. */
  ghost predicate Runs(s: System, es: seq<Event>, t: System)
    decreases |es|
  {
    if es == [] then s == t
    else
      && Honest(s, es[0])
      && (es[0].Advance? ==> HasCoins(s.inFlight[es[0].k]))
      && Runs(Next(s, es[0]), es[1..], t)
  }

  lemma {:induction false} RunKeepsInv(s: System, es: seq<Event>, t: System)
    requires Inv(s) && Runs(s, es, t)
    ensures Inv(t)
    decreases |es|
  {
    if es != [] {
      StepKeepsInv(s, es[0]);
      RunKeepsInv(Next(s, es[0]), es[1..], t);
    }
  }

  /** Once nothing is in flight the two sides agree, whatever overlapped. */
  lemma QuietSystemsConverge(s: System, es: seq<Event>, t: System)
    requires Inv(s) && Runs(s, es, t) && t.inFlight == []
    ensures t.alice.state == t.finished && t.bob.state == t.finished
    ensures multiset(t.alice.mine) == multiset(t.bob.theirs)
    ensures multiset(t.bob.mine) == multiset(t.alice.theirs)
  {
    RunKeepsInv(s, es, t);
  }

  /** In every reachable state each own transaction carries the other side's signature over its
      hash, and a key travels only after its update is in the sender's own list. */
  lemma AlwaysBroadcastable(s: System, es: seq<Event>, t: System)
    requires Inv(s) && Runs(s, es, t)
    ensures forall tx :: tx in t.alice.mine ==> SignedBy(tx, t.bob.id)
    ensures forall tx :: tx in t.bob.mine ==> SignedBy(tx, t.alice.id)
    ensures forall k :: 0 <= k < |t.inFlight| ==>
      var u := t.inFlight[k];
      && (u.phase.KeySent? ==> u.phase.signed in t.At(u.initiator).mine && u.phase.signed.Hash() == u.tx.Hash())
      && (u.phase.KeyReturned? ==> u.phase.own in t.At(Other(u.initiator)).mine)
  {
    RunKeepsInv(s, es, t);
  }

  /** The revocation info an initiator stores when it finishes update `k`. */
  function StoredInfo(s: System, k: nat): RevocationInfo
    requires k < |s.inFlight| && s.inFlight[k].phase.KeyReturned? && HasCoins(s.inFlight[k])
  {
    var u := s.inFlight[k];
    InfoFor(u.phase.own, CoinIndex(!s.At(u.initiator).funder), u.phase.revealed)
  }

  /** The info names the responder's own transaction and own output, and its key fits. */
  ghost predicate RevokesOwnOutput(info: RevocationInfo, responder: Party) {
    && (exists tx :: tx in responder.mine && tx.Hash() == info.transactionHash && info.outputIndex < |tx.outputs|
                     && tx.outputs[info.outputIndex] == info.output)
    && info.output.lockingScript.Script? && info.output.lockingScript.publicKey == Pub(responder.id)
    && info.outputIndex == CoinIndex(responder.funder)
    && info.revKey.Some? && info.output.lockingScript.revocationKey == Pub(info.revKey.value)
    && info.scriptType == Some(MULTI)
  }

  lemma RevealedKeyFits(me: Party, them: Party, u: Update)
    requires Sane(me, them, u) && u.phase.KeyReturned? && me.funder != them.funder
    ensures HasCoins(u) && RevokesOwnOutput(InfoFor(u.phase.own, CoinIndex(!me.funder), u.phase.revealed), them)
  {
    assert u.phase.own in them.mine;
  }

  /** Whichever party is the funder, the info an initiator stores names the responder's own
      transaction and own output, and exactly the revealed key lets the wallet claim that output. */
  lemma RevocationsWork(s: System, es: seq<Event>, t: System, k: nat, wallet: SecretKey, fee: uint32, version: uint32)
    requires Inv(s) && Runs(s, es, t) && k < |t.inFlight| && t.inFlight[k].phase.KeyReturned?
    ensures HasCoins(t.inFlight[k]) && RevokesOwnOutput(StoredInfo(t, k), t.At(Other(t.inFlight[k].initiator)))
    ensures var u := t.inFlight[k];
      Next(t, Advance(k, 0)).At(u.initiator).theirKeys[u.tx.Hash()] == StoredInfo(t, k)
    ensures var info := StoredInfo(t, k);
      forall key :: Claims(info, wallet, fee, version, key) <==> key == info.revKey.value
  {
    RunKeepsInv(s, es, t);
    var u := t.inFlight[k];
    RevealedKeyFits(t.At(u.initiator), t.At(Other(u.initiator)), u);
    var info := StoredInfo(t, k);
    forall key ensures Claims(info, wallet, fee, version, key) <==> key == info.revKey.value {
      ClaimsExactly(info, wallet, fee, version, key);
    }
  }

  /** With this key the wallet makes a claim, which spends exactly the output the info names and pays
      its amount less the fee to the wallet. */
  ghost predicate Claims(info: RevocationInfo, wallet: SecretKey, fee: uint32, version: uint32, key: SecretKey) {
    var claim := HandleRevokedOutput(wallet, fee, version, info.transactionHash, info.output, info.outputIndex, key,
                                     info.scriptType);
    && claim.Some? && SignedBy(claim.value, wallet)
    && claim.value.inputs == [TransactionInput(info.transactionHash, info.outputIndex, NoScript)]
    && |claim.value.outputs| == 1
    && claim.value.outputs[0].lockingScript == Script(P2PK, Pub(wallet), NoKey, NoKey, 0)
    && (info.output.amount >= fee ==> claim.value.outputs[0].amount == info.output.amount - fee)
  }

  lemma ClaimsExactly(info: RevocationInfo, wallet: SecretKey, fee: uint32, version: uint32, key: SecretKey)
    requires info.scriptType == Some(MULTI) && info.output.lockingScript.Script?
    ensures Claims(info, wallet, fee, version, key) <==> info.output.lockingScript.revocationKey == Pub(key)
  {
    ClaimTakesOutput(wallet, fee, version, info.transactionHash, info.output, info.outputIndex, key, info.scriptType);
  }

  // ---- One update at a time ----

  /** A run in which an update begins only when none is in flight, with two or three outputs. */
  ghost predicate SerialRuns(s: System, es: seq<Event>, t: System)
    decreases |es|
  {
    if es == [] then s == t
    else
      && Honest(s, es[0])
      && (es[0].Advance? ==> HasCoins(s.inFlight[es[0].k]))
      && (es[0].Begin? ==> s.inFlight == [] && |es[0].tx.outputs| <= 3)
      && SerialRuns(Next(s, es[0]), es[1..], t)
  }

  ghost predicate SameAmountsUpTo(a: seq<Transaction>, b: seq<Transaction>, n: nat) {
    n <= |a| && n <= |b| && forall i :: 0 <= i < n ==> SameAmounts(a[i], b[i])
  }

  /** Two parties list the same `n` states for each other, with the same amounts. */
  ghost predicate Level(p: Party, q: Party, n: nat) {
    && p.mine == q.theirs && q.mine == p.theirs && |p.mine| == |q.mine| == n
    && SameAmountsUpTo(p.mine, q.mine, n)
  }

  /** The lists of an initiator and a responder when their only update has come this far. */
  ghost predicate InStepAt(me: Party, them: Party, phase: Phase, finished: nat) {
    match phase
    case Requested => Level(me, them, finished + 1)
    case Countersigned(signed, own) =>
      && me.mine + [signed] == them.theirs && them.mine == me.theirs && |me.mine| == |them.mine| == finished + 1
      && SameAmountsUpTo(me.mine, them.mine, finished + 1) && SameAmounts(signed, own)
    case KeySent(signed, own, _) =>
      && me.mine == them.theirs && them.mine + [own] == me.theirs && |me.mine| == |me.theirs| == finished + 2
      && SameAmountsUpTo(me.mine, me.theirs, finished + 2)
    case KeyReturned(_, _) => Level(me, them, finished + 2)
  }

  ghost predicate InStep(s: System) {
    && |s.inFlight| <= 1
    && (s.inFlight == [] ==> Level(s.alice, s.bob, s.finished + 1))
    && (s.inFlight != [] ==>
          var u := s.inFlight[0];
          2 <= |u.tx.outputs| <= 3 && InStepAt(s.At(u.initiator), s.At(Other(u.initiator)), u.phase, s.finished))
  }

  lemma LevelIsSymmetric(p: Party, q: Party, n: nat)
    requires Level(p, q, n)
    ensures Level(q, p, n)
  {
  }

  lemma RequestedInStep(me: Party, them: Party, tx: Transaction, revKey: SecretKey, finished: nat)
    requires Level(me, them, finished + 1) && 2 <= |tx.outputs| <= 3
    ensures var (q, signed, own) := Countersign(them, tx, revKey);
      InStepAt(me, q, Countersigned(signed, own), finished)
  {
    VersionsAgreeExactly(them, Sign(tx, them.id), Pub(revKey));
  }

  lemma CountersignedInStep(me: Party, them: Party, tx: Transaction, signed: Transaction, own: Transaction,
                            finished: nat)
    requires InStepAt(me, them, Countersigned(signed, own), finished)
    ensures var (p, theirs, key) := Exchange(me, tx, signed, own);
      InStepAt(p, them, KeySent(signed, theirs, key), finished)
  {
    var (p, theirs, key) := Exchange(me, tx, signed, own);
    forall i | 0 <= i < finished + 2 ensures SameAmounts(p.mine[i], p.theirs[i]) {
      if i < finished + 1 { assert SameAmounts(me.mine[i], them.mine[i]); }
    }
  }

  lemma SerialRequested(s: System, revKey: SecretKey)
    requires InStep(s) && |s.inFlight| == 1 && HasCoins(s.inFlight[0]) && s.inFlight[0].phase.Requested?
    ensures InStep(Next(s, Advance(0, revKey)))
  {
    var u := s.inFlight[0];
    RequestedInStep(s.At(u.initiator), s.At(Other(u.initiator)), u.tx, revKey, s.finished);
  }

  lemma SerialCountersigned(s: System, revKey: SecretKey)
    requires InStep(s) && |s.inFlight| == 1 && HasCoins(s.inFlight[0]) && s.inFlight[0].phase.Countersigned?
    ensures InStep(Next(s, Advance(0, revKey)))
  {
    var u := s.inFlight[0];
    CountersignedInStep(s.At(u.initiator), s.At(Other(u.initiator)), u.tx, u.phase.signed, u.phase.own, s.finished);
  }

  lemma SerialKeySent(s: System, revKey: SecretKey)
    requires AllSane(s) && InStep(s) && |s.inFlight| == 1 && HasCoins(s.inFlight[0]) && s.inFlight[0].phase.KeySent?
    ensures InStep(Next(s, Advance(0, revKey)))
  {
    var u := s.inFlight[0];
    RevealGains(s.At(Other(u.initiator)), u.phase.own, u.phase.key);
  }

  lemma SerialKeyReturned(s: System, revKey: SecretKey)
    requires InStep(s) && |s.inFlight| == 1 && HasCoins(s.inFlight[0]) && s.inFlight[0].phase.KeyReturned?
    ensures InStep(Next(s, Advance(0, revKey)))
  {
    var u := s.inFlight[0];
    LevelIsSymmetric(s.At(u.initiator), s.At(Other(u.initiator)), s.finished + 2);
  }

  lemma SerialAdvance(s: System, revKey: SecretKey)
    requires AllSane(s) && InStep(s) && |s.inFlight| == 1 && HasCoins(s.inFlight[0])
    ensures InStep(Next(s, Advance(0, revKey)))
  {
    match s.inFlight[0].phase
    case Requested => SerialRequested(s, revKey);
    case Countersigned(_, _) => SerialCountersigned(s, revKey);
    case KeySent(_, _, _) => SerialKeySent(s, revKey);
    case KeyReturned(_, _) => SerialKeyReturned(s, revKey);
  }

  lemma SerialStep(s: System, e: Event)
    requires AllSane(s) && InStep(s) && Honest(s, e) && (e.Advance? ==> HasCoins(s.inFlight[e.k]))
    requires e.Begin? ==> s.inFlight == [] && |e.tx.outputs| <= 3
    ensures InStep(Next(s, e))
  {
    if e.Advance? {
      SerialAdvance(s, e.revKey);
    } else {
      LevelIsSymmetric(s.alice, s.bob, s.finished + 1);
    }
  }

  lemma {:induction false} SerialRunInStep(s: System, es: seq<Event>, t: System)
    requires Inv(s) && InStep(s) && SerialRuns(s, es, t)
    ensures Inv(t) && InStep(t)
    decreases |es|
  {
    if es != [] {
      StepKeepsInv(s, es[0]);
      SerialStep(s, es[0]);
      SerialRunInStep(Next(s, es[0]), es[1..], t);
    }
  }

  /** Updates that run one at a time leave both sides equal position by position, with one
      entry per state and equal amounts in the two versions of each state. */
  lemma SerialUpdatesAgree(a: SecretKey, b: SecretKey, blocksA: uint32, blocksB: uint32, funding: Transaction,
                           fee: uint32,
                           lockTime: uint32, keyA: SecretKey, keyB: SecretKey, es: seq<Event>, t: System)
    requires |funding.outputs| >= 3
    requires SerialRuns(Open(a, b, blocksA, blocksB, funding, fee, lockTime, keyA, keyB), es, t) && t.inFlight == []
    ensures t.alice.mine == t.bob.theirs && t.bob.mine == t.alice.theirs
    ensures forall r :: |t.At(r).mine| == t.At(r).state + 1 && |t.At(r).theirs| == t.At(r).state + 1
    ensures forall r, i :: 0 <= i < |t.At(r).mine| ==> SameAmounts(t.At(r).mine[i], t.At(r).theirs[i])
  {
    var s := Open(a, b, blocksA, blocksB, funding, fee, lockTime, keyA, keyB);
    OpenInv(a, b, blocksA, blocksB, funding, fee, lockTime, keyA, keyB);
    OpenInStep(a, b, blocksA, blocksB, funding, fee, lockTime, keyA, keyB);
    SerialRunInStep(s, es, t);
    StepsAgree(t);
  }

  lemma OpenInStep(a: SecretKey, b: SecretKey, blocksA: uint32, blocksB: uint32, funding: Transaction, fee: uint32,
                   lockTime: uint32, keyA: SecretKey, keyB: SecretKey)
    requires |funding.outputs| >= 3
    ensures InStep(Open(a, b, blocksA, blocksB, funding, fee, lockTime, keyA, keyB))
  {
  }

  lemma StepsAgree(t: System)
    requires Inv(t) && InStep(t) && t.inFlight == []
    ensures t.alice.mine == t.bob.theirs && t.bob.mine == t.alice.theirs
    ensures forall r :: |t.At(r).mine| == t.At(r).state + 1 && |t.At(r).theirs| == t.At(r).state + 1
    ensures forall r, i :: 0 <= i < |t.At(r).mine| ==> SameAmounts(t.At(r).mine[i], t.At(r).theirs[i])
  {
  }
}
