/** What the entries of the two parties' lists are, in every run: the refund, an update the owner
    began, or an answer that pays the other party its coin; and which keys travel. */
module ChannelEntries {
  import opened Ledger
  import opened Revocation
  import opened ChannelState
  import opened ChannelSystem
  import opened ChannelTheorems

  /** The updates begun in a run, with their initiators. */
  function Begun(es: seq<Event>): set<(Role, Transaction)> {
    set k | 0 <= k < |es| && es[k].Begin? :: (es[k].role, es[k].tx)
  }

  /** What is agreed on when a channel opens: the keys of Alice, who funds it, and of Bob, and the
      refund. */
  datatype Terms = Terms(alice: SecretKey, bob: SecretKey, refund: Hash)

  /** An own transaction of a party: the refund, an update it began, or its version of an update the
      other party began. */
  ghost predicate Entry(terms: Terms, begun: set<(Role, Transaction)>, r: Role, e: Transaction) {
    || e.Hash() == terms.refund
    || (exists tx :: (r, tx) in begun && e.Hash() == tx.Hash())
    || (r == Bob && exists tx :: (Alice, tx) in begun && Answers(true, terms.alice, tx, e))
    || (r == Alice && exists tx :: (Bob, tx) in begun && Answers(false, terms.bob, tx, e))
  }

  ghost predicate AllEntries(terms: Terms, begun: set<(Role, Transaction)>, r: Role, list: seq<Transaction>) {
    forall e :: e in list ==> Entry(terms, begun, r, e)
  }

  ghost predicate Accounted(s: System, terms: Terms, begun: set<(Role, Transaction)>) {
    && s.alice.id == terms.alice && s.bob.id == terms.bob
    && AllEntries(terms, begun, Alice, s.alice.mine) && AllEntries(terms, begun, Alice, s.bob.theirs)
    && AllEntries(terms, begun, Bob, s.bob.mine) && AllEntries(terms, begun, Bob, s.alice.theirs)
    && forall k :: 0 <= k < |s.inFlight| ==> (s.inFlight[k].initiator, s.inFlight[k].tx) in begun
  }

  lemma MoreEntries(terms: Terms, begun: set<(Role, Transaction)>, r: Role, a: seq<Transaction>, b: seq<Transaction>)
    requires AllEntries(terms, begun, r, a) && AllEntries(terms, begun, r, b)
    ensures AllEntries(terms, begun, r, a + b)
  {
  }

  /** The step replaces update `k` and adds to the lists only the update and answers to it. */
  lemma ReplacingAccounts(s: System, t: System, k: nat, v: Update, g: Gain, h: Gain, terms: Terms,
                          begun: set<(Role, Transaction)>)
    requires Paired(s) && Accounted(s, terms, begun) && Replaces(s, t, k, v, g, h) && v.tx == s.inFlight[k].tx
    requires AllEntries(terms, begun, v.initiator, g.mine) && AllEntries(terms, begun, v.initiator, h.theirs)
    requires AllEntries(terms, begun, Other(v.initiator), h.mine)
    requires AllEntries(terms, begun, Other(v.initiator), g.theirs)
    ensures Accounted(t, terms, begun)
  {
    var i, j := v.initiator, Other(v.initiator);
    MoreEntries(terms, begun, i, s.At(i).mine, g.mine);
    MoreEntries(terms, begun, i, s.At(j).theirs, h.theirs);
    MoreEntries(terms, begun, j, s.At(j).mine, h.mine);
    MoreEntries(terms, begun, j, s.At(i).theirs, g.theirs);
    forall n | 0 <= n < |t.inFlight| ensures (t.inFlight[n].initiator, t.inFlight[n].tx) in begun {
      assert (s.inFlight[n].initiator, s.inFlight[n].tx) in begun;
    }
  }

  lemma UpdateIsEntry(terms: Terms, begun: set<(Role, Transaction)>, r: Role, tx: Transaction, e: Transaction)
    requires (r, tx) in begun && e.Hash() == tx.Hash()
    ensures AllEntries(terms, begun, r, [e])
  {
    assert Entry(terms, begun, r, e);
  }

  lemma AnswerIsEntry(s: System, terms: Terms, begun: set<(Role, Transaction)>, r: Role, tx: Transaction,
                      e: Transaction)
    requires Paired(s) && Accounted(s, terms, begun)
    requires (r, tx) in begun && Answers(s.At(r).funder, s.At(r).id, tx, e)
    ensures AllEntries(terms, begun, Other(r), [e])
  {
    assert Entry(terms, begun, Other(r), e);
  }

  lemma RequestedAccounts(s: System, k: nat, revKey: SecretKey, terms: Terms, begun: set<(Role, Transaction)>)
    requires Inv(s) && Accounted(s, terms, begun)
    requires k < |s.inFlight| && s.inFlight[k].phase.Requested? && HasCoins(s.inFlight[k])
    ensures Accounted(Next(s, Advance(k, revKey)), terms, begun)
  {
    var u := s.inFlight[k];
    var (q, signed, own) := Countersign(s.At(Other(u.initiator)), u.tx, revKey);
    RequestedReplaces(s, k, revKey);
    UpdateIsEntry(terms, begun, u.initiator, u.tx, signed);
    ReplacingAccounts(s, Next(s, Advance(k, revKey)), k, u.(phase := Countersigned(signed, own)),
                      Gain([], [], 0), Gain([], [signed], 0), terms, begun);
  }

  lemma CountersignedAccounts(s: System, k: nat, revKey: SecretKey, terms: Terms, begun: set<(Role, Transaction)>)
    requires Inv(s) && Accounted(s, terms, begun)
    requires k < |s.inFlight| && s.inFlight[k].phase.Countersigned? && HasCoins(s.inFlight[k])
    ensures Accounted(Next(s, Advance(k, revKey)), terms, begun)
  {
    var u := s.inFlight[k];
    var (p, theirs, key) := Exchange(s.At(u.initiator), u.tx, u.phase.signed, u.phase.own);
    CountersignedReplaces(s, k, revKey);
    UpdateIsEntry(terms, begun, u.initiator, u.tx, u.phase.signed);
    AnswerIsEntry(s, terms, begun, u.initiator, u.tx, theirs);
    ReplacingAccounts(s, Next(s, Advance(k, revKey)), k, u.(phase := KeySent(u.phase.signed, theirs, key)),
                      Gain([u.phase.signed], [theirs], 0), Gain([], [], 0), terms, begun);
  }

  lemma KeySentAccounts(s: System, k: nat, revKey: SecretKey, terms: Terms, begun: set<(Role, Transaction)>)
    requires Inv(s) && Accounted(s, terms, begun)
    requires k < |s.inFlight| && s.inFlight[k].phase.KeySent? && HasCoins(s.inFlight[k])
    ensures Accounted(Next(s, Advance(k, revKey)), terms, begun)
  {
    var u := s.inFlight[k];
    var reply := Reveal(s.At(Other(u.initiator)), u.phase.own, u.phase.key).1;
    KeySentReplaces(s, k, revKey);
    AnswerIsEntry(s, terms, begun, u.initiator, u.tx, u.phase.own);
    ReplacingAccounts(s, Next(s, Advance(k, revKey)), k, u.(phase := KeyReturned(u.phase.own, reply.value)),
                      Gain([], [], 0), Gain([u.phase.own], [], 1), terms, begun);
  }

  lemma KeyReturnedAccounts(s: System, k: nat, revKey: SecretKey, terms: Terms, begun: set<(Role, Transaction)>)
    requires Accounted(s, terms, begun)
    requires k < |s.inFlight| && s.inFlight[k].phase.KeyReturned? && HasCoins(s.inFlight[k])
    ensures Accounted(Next(s, Advance(k, revKey)), terms, begun)
  {
    var t := Next(s, Advance(k, revKey));
    forall n | 0 <= n < |t.inFlight| ensures (t.inFlight[n].initiator, t.inFlight[n].tx) in begun {
      assert t.inFlight[n] == s.inFlight[if n < k then n else n + 1];
    }
  }

  lemma BeginAccounts(s: System, e: Event, terms: Terms, begun: set<(Role, Transaction)>,
                      more: set<(Role, Transaction)>)
    requires Accounted(s, terms, begun) && e.Begin? && Honest(s, e) && more == begun + {(e.role, e.tx)}
    ensures Accounted(Next(s, e), terms, more)
  {
    forall r, list | AllEntries(terms, begun, r, list) ensures AllEntries(terms, more, r, list) {
      forall x | x in list ensures Entry(terms, more, r, x) { assert Entry(terms, begun, r, x); }
    }
  }

  lemma StepAccounts(s: System, e: Event, terms: Terms, begun: set<(Role, Transaction)>)
    requires Inv(s) && Honest(s, e) && (e.Advance? ==> HasCoins(s.inFlight[e.k])) && Accounted(s, terms, begun)
    ensures Accounted(Next(s, e), terms, begun + Begun([e]))
  {
    if e.Begin? {
      assert Begun([e]) == {(e.role, e.tx)} by { assert [e][0] == e; }
      BeginAccounts(s, e, terms, begun, begun + Begun([e]));
    } else {
      assert Begun([e]) == {} by { assert [e][0] == e; }
      assert begun + Begun([e]) == begun;
      match s.inFlight[e.k].phase
      case Requested => RequestedAccounts(s, e.k, e.revKey, terms, begun);
      case Countersigned(_, _) => CountersignedAccounts(s, e.k, e.revKey, terms, begun);
      case KeySent(_, _, _) => KeySentAccounts(s, e.k, e.revKey, terms, begun);
      case KeyReturned(_, _) => KeyReturnedAccounts(s, e.k, e.revKey, terms, begun);
    }
  }

  lemma BegunGrows(es: seq<Event>)
    requires es != []
    ensures Begun(es) == Begun([es[0]]) + Begun(es[1..])
  {
    forall x | x in Begun(es) ensures x in Begun([es[0]]) + Begun(es[1..]) {
      var k :| 0 <= k < |es| && es[k].Begin? && x == (es[k].role, es[k].tx);
      if k > 0 { assert es[1..][k - 1] == es[k]; } else { assert [es[0]][0] == es[k]; }
    }
    forall x | x in Begun(es[1..]) ensures x in Begun(es) {
      var k :| 0 <= k < |es[1..]| && es[1..][k].Begin? && x == (es[1..][k].role, es[1..][k].tx);
      assert es[k + 1] == es[1..][k];
    }
  }

  lemma {:induction false} RunAccounts(s: System, es: seq<Event>, t: System, terms: Terms,
                                       begun: set<(Role, Transaction)>)
    requires Inv(s) && Runs(s, es, t) && Accounted(s, terms, begun)
    ensures Accounted(t, terms, begun + Begun(es))
    decreases |es|
  {
    if es == [] {
      assert begun + Begun(es) == begun;
    } else {
      StepKeepsInv(s, es[0]);
      StepAccounts(s, es[0], terms, begun);
      RunAccounts(Next(s, es[0]), es[1..], t, terms, begun + Begun([es[0]]));
      BegunGrows(es);
      assert begun + Begun([es[0]]) + Begun(es[1..]) == begun + Begun(es);
    }
  }

  lemma OpenAccounts(s: System, terms: Terms, refund: Transaction)
    requires s.alice.id == terms.alice && s.bob.id == terms.bob && s.inFlight == [] && refund.Hash() == terms.refund
    requires s.alice.mine == s.alice.theirs == s.bob.mine == s.bob.theirs == [refund]
    ensures Accounted(s, terms, {})
  {
  }

  /** In every run of an opened channel, each entry of either list of either party is the refund, an
      update its owner began, or a version of an update the other began that pays the other its
      coin outright and keeps amounts, change, inputs and lock time. */
  lemma EveryEntryIsAccountedFor(a: SecretKey, b: SecretKey, blocksA: uint32, blocksB: uint32, funding: Transaction,
                                 fee: uint32, lockTime: uint32, keyA: SecretKey, keyB: SecretKey, es: seq<Event>,
                                 t: System)
    requires |funding.outputs| >= 3
    requires Runs(Open(a, b, blocksA, blocksB, funding, fee, lockTime, keyA, keyB), es, t)
    ensures var terms := Terms(a, b, Refund(a, Pub(b), funding, fee, Pub(keyA), blocksA, lockTime).Hash());
      && t.alice.id == a && t.bob.id == b && t.alice.funder && !t.bob.funder
      && (forall e :: e in t.alice.mine || e in t.bob.theirs ==> Entry(terms, Begun(es), Alice, e))
      && (forall e :: e in t.bob.mine || e in t.alice.theirs ==> Entry(terms, Begun(es), Bob, e))
  {
    var s := Open(a, b, blocksA, blocksB, funding, fee, lockTime, keyA, keyB);
    var half := Refund(a, Pub(b), funding, fee, Pub(keyA), blocksA, lockTime);
    SignKeepsHash(half, b);
    OpenInv(a, b, blocksA, blocksB, funding, fee, lockTime, keyA, keyB);
    OpenAccounts(s, Terms(a, b, half.Hash()), Sign(half, b));
    RunKeepsInv(s, es, t);
    RunAccounts(s, es, t, Terms(a, b, half.Hash()), {});
    assert {} + Begun(es) == Begun(es);
  }

  /** At the start each party has recorded its key for the refund, and Alice's revokes its output. */
  lemma OpenRecordsKeys(a: SecretKey, b: SecretKey, blocksA: uint32, blocksB: uint32, funding: Transaction,
                        fee: uint32, lockTime: uint32, keyA: SecretKey, keyB: SecretKey)
    requires |funding.outputs| >= 3
    ensures var s := Open(a, b, blocksA, blocksB, funding, fee, lockTime, keyA, keyB);
      && |s.alice.mine| == 1 && s.alice.mine == s.alice.theirs == s.bob.mine == s.bob.theirs
      && s.alice.myKeys == map[s.alice.mine[0].Hash() := keyA] && s.bob.myKeys == map[s.alice.mine[0].Hash() := keyB]
      && s.alice.theirKeys == map[] && s.bob.theirKeys == map[]
      && |s.alice.mine[0].outputs| == 1 && s.alice.mine[0].outputs[0].lockingScript.Script?
      && s.alice.mine[0].outputs[0].lockingScript.revocationKey == Pub(keyA)
  {
    RefundSpendsFunding(a, Pub(b), funding, fee, Pub(keyA), blocksA, lockTime);
  }

  // ---- Keys ----

  /** Every key a party has recorded for a transaction with two coins fits its own coin of it. */
  ghost predicate KeysFit(p: Party) {
    forall h :: h in p.myKeys && h.OfTransaction? && |h.outputs| >= 2 ==> Fits(p, h, p.myKeys[h])
  }

  /** A key that travels with an answer fits the initiator's own coin of the update. */
  ghost predicate KeySentFits(me: Party, u: Update) {
    u.phase.KeySent? && u.phase.key.Some? ==> Fits(me, u.tx.Hash(), u.phase.key.value)
  }

  ghost predicate AllKeysFit(s: System) {
    && KeysFit(s.alice) && KeysFit(s.bob)
    && forall k :: 0 <= k < |s.inFlight| ==> KeySentFits(s.At(s.inFlight[k].initiator), s.inFlight[k])
  }

  lemma CountersignKeysFit(p: Party, initiator: SecretKey, tx: Transaction, revKey: SecretKey)
    requires KeysFit(p) && |tx.outputs| >= 2 && p.counterParty == Pub(initiator)
    ensures KeysFit(Countersign(p, tx, revKey).0)
  {
    AnswerPaysBoth(p, initiator, Sign(tx, p.id), revKey);
  }

  lemma PartiesKeysFit(s: System, k: nat, revKey: SecretKey)
    requires Paired(s) && KeysFit(s.alice) && KeysFit(s.bob) && k < |s.inFlight| && HasCoins(s.inFlight[k])
    ensures var t := Next(s, Advance(k, revKey));
      && KeysFit(t.alice) && KeysFit(t.bob) && t.alice.funder == s.alice.funder && t.bob.funder == s.bob.funder
  {
    var u := s.inFlight[k];
    if u.phase.Requested? { CountersignKeysFit(s.At(Other(u.initiator)), s.At(u.initiator).id, u.tx, revKey); }
  }

  lemma AdvancedUpdate(s: System, k: nat, revKey: SecretKey, i: nat)
    requires k < |s.inFlight| && HasCoins(s.inFlight[k]) && i < |Next(s, Advance(k, revKey)).inFlight|
    ensures var us := Next(s, Advance(k, revKey)).inFlight;
      || us[i] in s.inFlight
      || (i == k && us[i].initiator == s.inFlight[k].initiator && us[i].tx == s.inFlight[k].tx
          && (us[i].phase.KeySent? ==> us[i].phase.key == KeyFor(s.At(us[i].initiator), us[i].tx.Hash())))
  {
    var us := Next(s, Advance(k, revKey)).inFlight;
    if |us| < |s.inFlight| {
      assert us[i] == s.inFlight[if i < k then i else i + 1];
    } else if i != k {
      assert us[i] == s.inFlight[i];
    }
  }

  lemma AdvanceKeysFit(s: System, k: nat, revKey: SecretKey)
    requires Inv(s) && AllKeysFit(s) && k < |s.inFlight| && HasCoins(s.inFlight[k])
    ensures AllKeysFit(Next(s, Advance(k, revKey)))
  {
    var t := Next(s, Advance(k, revKey));
    PartiesKeysFit(s, k, revKey);
    forall i | 0 <= i < |t.inFlight| ensures KeySentFits(t.At(t.inFlight[i].initiator), t.inFlight[i]) {
      AdvancedUpdate(s, k, revKey, i);
      var u := t.inFlight[i];
      assert KeySentFits(s.At(u.initiator), u) by { KeySentStays(s, u, k); }
    }
  }

  lemma KeySentStays(s: System, u: Update, k: nat)
    requires AllKeysFit(s) && k < |s.inFlight| && HasCoins(s.inFlight[k])
    requires u in s.inFlight ||
      (u.tx == s.inFlight[k].tx && (u.phase.KeySent? ==> u.phase.key == KeyFor(s.At(u.initiator), u.tx.Hash())))
    ensures KeySentFits(s.At(u.initiator), u)
  {
  }

  lemma StepKeysFit(s: System, e: Event)
    requires Inv(s) && AllKeysFit(s) && Honest(s, e) && (e.Advance? ==> HasCoins(s.inFlight[e.k]))
    ensures AllKeysFit(Next(s, e))
  {
    if e.Advance? { AdvanceKeysFit(s, e.k, e.revKey); }
  }

  lemma {:induction false} RunKeysFit(s: System, es: seq<Event>, t: System)
    requires Inv(s) && AllKeysFit(s) && Runs(s, es, t)
    ensures Inv(t) && AllKeysFit(t)
    decreases |es|
  {
    if es != [] {
      StepKeepsInv(s, es[0]);
      StepKeysFit(s, es[0]);
      RunKeysFit(Next(s, es[0]), es[1..], t);
    }
  }

  lemma OpenKeysFit(a: SecretKey, b: SecretKey, blocksA: uint32, blocksB: uint32, funding: Transaction, fee: uint32,
                    lockTime: uint32, keyA: SecretKey, keyB: SecretKey)
    requires |funding.outputs| >= 3
    ensures AllKeysFit(Open(a, b, blocksA, blocksB, funding, fee, lockTime, keyA, keyB))
  {
    SignKeepsHash(Refund(a, Pub(b), funding, fee, Pub(keyA), blocksA, lockTime), b);
  }

  /** The key an initiator sends is the one recorded for the update, and fits its own coin of that
      very update: it is sent exactly when there is one. */
  lemma SentKeysFit(s: System, es: seq<Event>, t: System, k: nat, revKey: SecretKey)
    requires Inv(s) && AllKeysFit(s) && Runs(s, es, t)
    requires k < |t.inFlight| && t.inFlight[k].phase.Countersigned? && HasCoins(t.inFlight[k])
    ensures var u, v := t.inFlight[k], Next(t, Advance(k, revKey)).inFlight[k];
      && v.phase.KeySent?
      && (v.phase.key.Some? <==> u.tx.Hash() in t.At(u.initiator).myKeys)
      && (v.phase.key.Some? ==>
          u.tx.outputs[if t.At(u.initiator).funder then 0 else 1].lockingScript.Script? &&
          u.tx.outputs[if t.At(u.initiator).funder then 0 else 1].lockingScript.revocationKey == Pub(v.phase.key.value))
  {
    RunKeysFit(s, es, t);
    AdvanceKeysFit(t, k, revKey);
    var u := t.inFlight[k];
    assert KeySentFits(Next(t, Advance(k, revKey)).At(u.initiator), Next(t, Advance(k, revKey)).inFlight[k]);
  }

  /** What a responder records is its own coin with the key it received, which claims that coin if
      and only if it is the key the responder itself revokes it with. */
  lemma ResponderInfoExactly(s: System, es: seq<Event>, t: System, k: nat, revKey: SecretKey)
    requires Inv(s) && Runs(s, es, t) && k < |t.inFlight| && t.inFlight[k].phase.KeySent? && HasCoins(t.inFlight[k])
    ensures var u := t.inFlight[k]; var own, them := u.phase.own, t.At(Other(u.initiator));
      var infos := Next(t, Advance(k, revKey)).At(Other(u.initiator)).theirKeys;
      && own.Hash() in infos
      && (var info, index := infos[own.Hash()], if them.funder then 0 else 1;
          && info.outputIndex == index && info.output == own.outputs[index] && info.transactionHash == own.Hash()
          && info.revKey == u.phase.key && info.scriptType == Some(MULTI)
          && own.Hash() in them.myKeys
          && forall key :: RevKeySuccessful(info.output.lockingScript, key, info.scriptType) <==>
                           key == them.myKeys[own.Hash()])
  {
    RunKeepsInv(s, es, t);
    var u := t.inFlight[k];
    assert Sane(t.At(u.initiator), t.At(Other(u.initiator)), u);
  }
}
