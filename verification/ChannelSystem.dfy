/** Two honest parties updating a channel over reliable remote calls: any number of updates,
    started by either side, may be in flight, and each segment is one atomic step. */
module ChannelSystem {
  import opened Ledger
  import opened Revocation
  import opened ChannelState

  datatype Role = Alice | Bob

  function Other(r: Role): Role {
    if r == Alice then Bob else Alice
  }

  /** How far an update has come. The message in flight is the request, the countersigned
      pair, the signed own version with a key, or the revealed key. */
  datatype Phase =
    | Requested
    | Countersigned(signed: Transaction, own: Transaction)
    | KeySent(signed: Transaction, own: Transaction, key: Option<SecretKey>)
    | KeyReturned(own: Transaction, revealed: Option<SecretKey>)

  datatype Update = Update(initiator: Role, tx: Transaction, phase: Phase)

  datatype System = System(alice: Party, bob: Party, inFlight: seq<Update>, finished: nat)
  {
    function At(r: Role): Party {
      if r == Alice then alice else bob
    }

    function Put(r: Role, p: Party): System {
      if r == Alice then this.(alice := p) else this.(bob := p)
    }
  }

  datatype Event =
    | Begin(role: Role, tx: Transaction, key: Option<SecretKey>)
    | Advance(k: nat, revKey: SecretKey)

  /** An initiator's update has both coins, and a key recorded for it belongs to the
      revocation key of the initiator's own output. */
  predicate Honest(s: System, e: Event) {
    match e
    case Begin(role, tx, key) =>
      && |tx.outputs| >= 2
      && (key.Some? ==> var script := tx.outputs[CoinIndex(s.At(role).funder)].lockingScript;
                        script.Script? && script.revocationKey == Pub(key.value))
    case Advance(k, _) => k < |s.inFlight|
  }

  function Drop<T>(s: seq<T>, k: nat): seq<T>
    requires k < |s|
  {
    s[..k] + s[k + 1..]
  }

  predicate HasCoins(u: Update) {
    && |u.tx.outputs| >= 2
    && (u.phase.Countersigned? || u.phase.KeySent? || u.phase.KeyReturned? ==> |u.phase.own.outputs| >= 2)
  }

  function Next(s: System, e: Event): System
    requires Honest(s, e)
    requires e.Advance? ==> HasCoins(s.inFlight[e.k])
  {
    match e
    case Begin(role, tx, key) =>
      var p := s.At(role);
      s.Put(role, if key.Some? then p.(myKeys := p.myKeys[tx.Hash() := key.value]) else p)
       .(inFlight := s.inFlight + [Update(role, tx, Requested)])
    case Advance(k, revKey) =>
      var u := s.inFlight[k];
      var me, them := s.At(u.initiator), s.At(Other(u.initiator));
      match u.phase
      case Requested =>
        var (q, signed, own) := Countersign(them, u.tx, revKey);
        s.Put(Other(u.initiator), q).(inFlight := s.inFlight[k := u.(phase := Countersigned(signed, own))])
      case Countersigned(signed, own) =>
        var (p, theirs, key) := Exchange(me, u.tx, signed, own);
        s.Put(u.initiator, p).(inFlight := s.inFlight[k := u.(phase := KeySent(signed, theirs, key))])
      case KeySent(signed, own, key) =>
        var (q, reply) := Reveal(them, own, key);
        s.Put(Other(u.initiator), q)
         .(inFlight := if reply.None? then Drop(s.inFlight, k)
                       else s.inFlight[k := u.(phase := KeyReturned(own, reply.value))])
      case KeyReturned(own, revealed) =>
        s.Put(u.initiator, Finish(me, u.tx, own, revealed))
          .(inFlight := Drop(s.inFlight, k), finished := s.finished + 1)
  }

  function Open(a: SecretKey, b: SecretKey, blocksA: uint32, blocksB: uint32, funding: Transaction, fee: uint32,
                lockTime: uint32, keyA: SecretKey, keyB: SecretKey): System
    requires |funding.outputs| >= 3
  {
    var refund := Sign(Refund(a, Pub(b), funding, fee, Pub(keyA), blocksA, lockTime), b);
    System(Opened(a, blocksA, true, Pub(b), refund, keyA), Opened(b, blocksB, false, Pub(a), refund, keyB), [], 0)
  }

  // ---- What every step keeps ----

  function SumOf(us: seq<Update>, f: Update -> nat): nat
  {
    if us == [] then 0 else f(us[0]) + SumOf(us[1..], f)
  }

  /** The transaction an update still owes a party's own list, when the other side already
      lists it as that party's. */
  function Due(u: Update, r: Role): Option<Transaction> {
    if u.phase.Countersigned? && u.initiator == r then Some(u.phase.signed)
    else if u.phase.KeySent? && u.initiator != r then Some(u.phase.own)
    else None
  }

  function Owes(r: Role, tx: Transaction): Update -> nat {
    (u: Update) => if Due(u, r) == Some(tx) then 1 else 0
  }

  /** Counts the updates a party has counted that are not finished yet. */
  function Ahead(r: Role): Update -> nat {
    (u: Update) => if u.phase.KeyReturned? && u.initiator != r then 1 else 0
  }

  /** A party's own list plus what it is owed is what the other side lists for it, and its
      state counts the finished updates and those it is ahead by. */
  ghost predicate Agree(p: Party, q: Party, r: Role, us: seq<Update>, finished: nat) {
    && (forall tx :: multiset(p.mine)[tx] + SumOf(us, Owes(r, tx)) == multiset(q.theirs)[tx])
    && p.state == finished + SumOf(us, Ahead(r))
  }

  /** What an initiator and a responder know of one update in flight. */
  ghost predicate Sane(me: Party, them: Party, u: Update) {
    && |u.tx.outputs| >= 2
    && match u.phase
       case Requested => true
       case Countersigned(signed, own) =>
         && SignedBy(signed, them.id) && signed.Hash() == u.tx.Hash()
         && Answers(me.funder, me.id, u.tx, own)
         && own.Hash() in them.myKeys && Revocable(them, own, them.myKeys[own.Hash()])
       case KeySent(signed, own, key) =>
         && signed in me.mine && signed.Hash() == u.tx.Hash()
         && Answers(me.funder, me.id, u.tx, own) && SignedBy(own, me.id)
         && own.Hash() in them.myKeys && Revocable(them, own, them.myKeys[own.Hash()])
       case KeyReturned(own, revealed) =>
         && own in them.mine && Answers(me.funder, me.id, u.tx, own)
         && revealed.Some? && Revocable(them, own, revealed.value)
  }

  ghost predicate AllSane(s: System) {
    forall k :: 0 <= k < |s.inFlight| ==>
      Sane(s.At(s.inFlight[k].initiator), s.At(Other(s.inFlight[k].initiator)), s.inFlight[k])
  }

  /** Every own transaction carries the signature of `sk`. */
  ghost predicate Broadcastable(p: Party, sk: SecretKey) {
    forall tx :: tx in p.mine ==> SignedBy(tx, sk)
  }

  ghost predicate Paired(s: System) {
    && s.alice.funder && !s.bob.funder
    && s.alice.counterParty == Pub(s.bob.id) && s.bob.counterParty == Pub(s.alice.id)
  }

  ghost predicate Inv(s: System) {
    && Paired(s) && AllSane(s)
    && Agree(s.alice, s.bob, Alice, s.inFlight, s.finished) && Agree(s.bob, s.alice, Bob, s.inFlight, s.finished)
    && Broadcastable(s.alice, s.bob.id) && Broadcastable(s.bob, s.alice.id)
  }

  lemma {:induction false} SumReplaced(us: seq<Update>, k: nat, v: Update, f: Update -> nat)
    requires k < |us|
    ensures SumOf(us[k := v], f) + f(us[k]) == SumOf(us, f) + f(v)
  {
    if k > 0 {
      SumReplaced(us[1..], k - 1, v, f);
      assert us[k := v][1..] == us[1..][k - 1 := v];
    } else {
      assert us[k := v][1..] == us[1..];
    }
  }

  lemma {:induction false} SumDropped(us: seq<Update>, k: nat, f: Update -> nat)
    requires k < |us|
    ensures SumOf(Drop(us, k), f) + f(us[k]) == SumOf(us, f)
  {
    if k > 0 {
      SumDropped(us[1..], k - 1, f);
      assert Drop(us, k)[0] == us[0] && Drop(us, k)[1..] == Drop(us[1..], k - 1);
    } else {
      assert Drop(us, k) == us[1..];
    }
  }

  lemma {:induction false} SumAppended(us: seq<Update>, v: Update, f: Update -> nat)
    ensures SumOf(us + [v], f) == SumOf(us, f) + f(v)
  {
    if us == [] {
      assert us + [v] == [v];
    } else {
      assert (us + [v])[1..] == us[1..] + [v];
      SumAppended(us[1..], v, f);
    }
  }

  lemma OpenInv(a: SecretKey, b: SecretKey, blocksA: uint32, blocksB: uint32, funding: Transaction, fee: uint32,
                lockTime: uint32, keyA: SecretKey, keyB: SecretKey)
    requires |funding.outputs| >= 3
    ensures Inv(Open(a, b, blocksA, blocksB, funding, fee, lockTime, keyA, keyB))
  {
    var half := Refund(a, Pub(b), funding, fee, Pub(keyA), blocksA, lockTime);
    assert Signature(a, half.Hash()) in half.witnesses;
    SignKeepsHash(half, b);
    var refund := Sign(half, b);
    StartInv(Opened(a, blocksA, true, Pub(b), refund, keyA), Opened(b, blocksB, false, Pub(a), refund, keyB), refund);
  }

  lemma StartInv(alice: Party, bob: Party, refund: Transaction)
    requires Paired(System(alice, bob, [], 0)) && alice.state == bob.state == 0
    requires alice.mine == alice.theirs == bob.mine == bob.theirs == [refund]
    requires SignedBy(refund, alice.id) && SignedBy(refund, bob.id)
    ensures Inv(System(alice, bob, [], 0))
  {
    AgreeAtStart(alice, bob, Alice);
    AgreeAtStart(bob, alice, Bob);
  }

  lemma AgreeAtStart(p: Party, q: Party, r: Role)
    requires p.mine == q.theirs && p.state == 0
    ensures Agree(p, q, r, [], 0)
  {
  }

  /** A party after a step: the same keys and role, longer lists, and no key recorded under a
      transaction replaced by one that does not fit the party's own output of it. */
  ghost predicate Grown(p: Party, q: Party) {
    && q.id == p.id && q.funder == p.funder && q.counterParty == p.counterParty
    && q.additionalBlocks == p.additionalBlocks
    && (forall tx :: tx in p.mine ==> tx in q.mine)
    && (forall h :: h in p.myKeys ==> h in q.myKeys && (q.myKeys[h] == p.myKeys[h] || Fits(p, h, q.myKeys[h])))
  }

  predicate Fits(p: Party, h: Hash, key: SecretKey) {
    && h.OfTransaction? && |h.outputs| >= 2
    && var script := h.outputs[CoinIndex(p.funder)].lockingScript;
       script.Script? && script.revocationKey == Pub(key)
  }

  lemma SaneStays(me: Party, me': Party, them: Party, them': Party, u: Update)
    requires Sane(me, them, u) && Grown(me, me') && Grown(them, them')
    ensures Sane(me', them', u)
  {
  }

  lemma HonestMeansSane(s: System, e: Event)
    requires Inv(s) && Honest(s, e)
    ensures e.Advance? ==> HasCoins(s.inFlight[e.k])
  {
  }

  lemma SignKeepsHash(tx: Transaction, sk: SecretKey)
    ensures Sign(tx, sk).Hash() == tx.Hash() && SignedBy(Sign(tx, sk), sk)
  {
    assert Signature(sk, tx.Hash()) in Sign(tx, sk).witnesses;
  }
}
