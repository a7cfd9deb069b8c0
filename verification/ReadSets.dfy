/** What a simulation's read set is worth: when re-running the same client against
    different shard state is guaranteed to behave the same; and the agreement of the
    two trackers that build read/write sets. */
module ReadSets {
  import opened Protocol
  import opened EvmState
  import opened Simulation

  /** A deterministic client: given the answers so far, the next call (or none). */
  type Client = seq<Answer> -> Option<Op>

  datatype Trace = Trace(sim: Sim, ops: seq<Op>, answers: seq<Answer>)

  /** n rounds of a client against a remote state. */
  function Play(r: Remote, client: Client, n: nat): Trace {
    if n == 0 then Trace(NEW_SIM, [], [])
    else
      var t := Play(r, client, n - 1);
      match client(t.answers)
      case None => t
      case Some(op) =>
        var (sim', a) := Step(r, t.sim, op);
        Trace(sim', t.ops + [op], t.answers + [a])
  }

  /** The slot a call looks at. */
  function SlotOf(op: Op): set<SlotKey> {
    match op
    case GetState(k) => {k}
    case GetBoth(k) => {k}
    case SetState(k, _) => {k}
    case _ => {}
  }

  function Touched(ops: seq<Op>): set<SlotKey> {
    if ops == [] then {} else Touched(ops[..|ops| - 1]) + SlotOf(ops[|ops| - 1])
  }

  lemma TouchedAppend(ops: seq<Op>, op: Op)
    ensures Touched(ops + [op]) == Touched(ops) + SlotOf(op)
  {
    assert (ops + [op])[..|ops|] == ops;
  }

  predicate SameAt(r: Remote, r': Remote, k: SlotKey) {
    r.storage(k) == r'.storage(k)
  }

  /** The same storage on the given slots. */
  ghost predicate AgreesOn(r: Remote, r': Remote, slots: set<SlotKey>) {
    forall k :: k in slots ==> SameAt(r, r', k)
  }

  /** The account whose balance a call looks at. */
  function AccountOf(op: Op): set<Address> {
    match op
    case GetBalance(a) => {a}
    case AddBalance(a, _) => {a}
    case SubBalance(a, _) => {a}
    case _ => {}
  }

  function Asked(ops: seq<Op>): set<Address> {
    if ops == [] then {} else Asked(ops[..|ops| - 1]) + AccountOf(ops[|ops| - 1])
  }

  lemma AskedAppend(ops: seq<Op>, op: Op)
    ensures Asked(ops + [op]) == Asked(ops) + AccountOf(op)
  {
    assert (ops + [op])[..|ops|] == ops;
  }

  ghost predicate BalancesAgree(r: Remote, r': Remote, accounts: set<Address>) {
    forall a :: a in accounts ==> r.balance(a) == r'.balance(a)
  }

  // ---------------------------------------------------------------------------
  // Two runs side by side
  // ---------------------------------------------------------------------------

  /** The same accounts were fetched, and those with equal remote balances are equal. */
  ghost predicate LikeAccounts(r: Remote, r': Remote, accounts: map<Address, Account>, accounts': map<Address,
                               Account>) {
    accounts.Keys == accounts'.Keys && forall a :: a in accounts && r.balance(a) == r'.balance(a) ==>
        accounts[a] == accounts'[a]
  }

  /** The same reads, writes and old values in every layer; fetched accounts may differ
      where the remote balances do. */
  ghost predicate Alike(r: Remote, r': Remote, sim: Sim, sim': Sim) {
    && sim'.cache == sim.cache && sim'.writes == sim.writes && sim'.olds == sim.olds
    && LikeAccounts(r, r', sim.accounts, sim'.accounts)
    && |sim'.snapshots| == |sim.snapshots|
    && forall i :: 0 <= i < |sim.snapshots| ==> LikeLayers(r, r', sim.snapshots[i], sim'.snapshots[i])
  }

  ghost predicate LikeLayers(r: Remote, r': Remote, s: Snap, s': Snap) {
    s'.cache == s.cache && s'.writes == s.writes && LikeAccounts(r, r', s.accounts, s'.accounts)
  }

  lemma ReadAlike(r: Remote, r': Remote, sim: Sim, sim': Sim, k: SlotKey)
    requires Alike(r, r', sim, sim') && SameAt(r, r', k)
    ensures Alike(r, r', Read(r, sim, k).0, Read(r', sim', k).0) && Read(r, sim, k).1 == Read(r', sim', k).1
  {
  }

  lemma StorageStepAlike(r: Remote, r': Remote, sim: Sim, sim': Sim, op: Op)
    requires Alike(r, r', sim, sim') && AgreesOn(r, r', SlotOf(op)) && (op.GetState? || op.GetBoth? || op.SetState?)
    ensures Alike(r, r', Step(r, sim, op).0, Step(r', sim', op).0) && Step(r, sim, op).1 == Step(r', sim', op).1
  {
    assert SameAt(r, r', op.k);
    ReadAlike(r, r', sim, sim', op.k);
  }

  lemma FetchAlike(r: Remote, r': Remote, sim: Sim, sim': Sim, a: Address)
    requires Alike(r, r', sim, sim')
    ensures Alike(r, r', Fetched(r, sim, a), Fetched(r', sim', a))
    ensures r.balance(a) == r'.balance(a) ==> BalanceOf(r, sim, a) == BalanceOf(r', sim', a)
  {
    assert a in sim.accounts <==> a in sim.accounts.Keys;
    assert a in sim'.accounts <==> a in sim'.accounts.Keys;
  }

  lemma SetAlike(r: Remote, r': Remote, sim: Sim, sim': Sim, a: Address, balance: nat)
    requires Alike(r, r', sim, sim') && r.balance(a) == r'.balance(a)
    ensures Alike(r, r', SetBalance(r, sim, a, balance), SetBalance(r', sim', a, balance))
  {
    FetchAlike(r, r', sim, sim', a);
    var sim1, sim2 := Fetched(r, sim, a), Fetched(r', sim', a);
    assert sim1.accounts[a] == sim2.accounts[a];
    assert SetBalance(r, sim, a, balance).accounts.Keys == sim1.accounts.Keys;
    assert SetBalance(r', sim', a, balance).accounts.Keys == sim2.accounts.Keys;
  }

  lemma BalanceStepAlike(r: Remote, r': Remote, sim: Sim, sim': Sim, op: Op)
    requires Alike(r, r', sim, sim') && BalancesAgree(r, r', AccountOf(op))
        && (op.GetBalance? || op.AddBalance? || op.SubBalance?)
    ensures Alike(r, r', Step(r, sim, op).0, Step(r', sim', op).0) && Step(r, sim, op).1 == Step(r', sim', op).1
  {
    assert op.a in AccountOf(op);
    FetchAlike(r, r', sim, sim', op.a);
    var balance := BalanceOf(r, sim, op.a);
    if op.AddBalance? {
      SetAlike(r, r', sim, sim', op.a, (balance + op.amount) % U256);
    } else if op.SubBalance? {
      SetAlike(r, r', sim, sim', op.a, (balance - op.amount) % U256);
    }
  }

  lemma StepAlike(r: Remote, r': Remote, sim: Sim, sim': Sim, op: Op)
    requires Alike(r, r', sim, sim') && AgreesOn(r, r', SlotOf(op)) && BalancesAgree(r, r', AccountOf(op))
    ensures Alike(r, r', Step(r, sim, op).0, Step(r', sim', op).0) && Step(r, sim, op).1 == Step(r', sim', op).1
  {
    match op {
      case GetState(_) => StorageStepAlike(r, r', sim, sim', op);
      case GetBoth(_) => StorageStepAlike(r, r', sim, sim', op);
      case SetState(_, _) => StorageStepAlike(r, r', sim, sim', op);
      case Snapshot =>
      case Revert(id) => assert id < |sim.snapshots| ==> LikeLayers(r, r', sim.snapshots[id], sim'.snapshots[id]);
      case GetBalance(_) => BalanceStepAlike(r, r', sim, sim', op);
      case AddBalance(_, _) => BalanceStepAlike(r, r', sim, sim', op);
      case SubBalance(_, _) => BalanceStepAlike(r, r', sim, sim', op);
    }
  }

  /** The same calls, the same answers, the same reads, writes and old values. */
  ghost predicate SameTrace(r: Remote, r': Remote, t: Trace, t': Trace) {
    t'.ops == t.ops && t'.answers == t.answers && Alike(r, r', t.sim, t'.sim)
  }

  lemma TouchedStep(r: Remote, client: Client, n: nat)
    requires n > 0
    ensures Touched(Play(r, client, n - 1).ops) <= Touched(Play(r, client, n).ops)
    ensures Asked(Play(r, client, n - 1).ops) <= Asked(Play(r, client, n).ops)
  {
    var t := Play(r, client, n - 1);
    if client(t.answers).Some? {
      TouchedAppend(t.ops, client(t.answers).value);
      AskedAppend(t.ops, client(t.answers).value);
    }
  }

  lemma {:induction false} TouchedGrows(r: Remote, client: Client, m: nat, n: nat)
    requires m <= n
    ensures Touched(Play(r, client, m).ops) <= Touched(Play(r, client, n).ops)
    ensures Asked(Play(r, client, m).ops) <= Asked(Play(r, client, n).ops)
    decreases n
  {
    if m < n {
      TouchedGrows(r, client, m, n - 1);
      TouchedStep(r, client, n);
    }
  }

  /** Agreement on the slots and accounts looked at is enough for the run to repeat itself. */
  lemma {:induction false} SameRun(r: Remote, r': Remote, client: Client, m: nat, n: nat)
    requires m <= n
    requires AgreesOn(r, r', Touched(Play(r, client, n).ops)) && BalancesAgree(r, r', Asked(Play(r, client, n).ops))
    ensures SameTrace(r, r', Play(r, client, m), Play(r', client, m))
    decreases m
  {
    if m > 0 {
      SameRun(r, r', client, m - 1, n);
      TouchedGrows(r, client, m, n);
      var t, t' := Play(r, client, m - 1), Play(r', client, m - 1);
      if client(t.answers).Some? {
        var op := client(t.answers).value;
        TouchedAppend(t.ops, op);
        AskedAppend(t.ops, op);
        StepAlike(r, r', t.sim, t'.sim, op);
      }
    }
  }

  /** Nothing untouched is in the caches, in any layer. */
  ghost predicate OnlyTouched(sim: Sim, slots: set<SlotKey>) {
    && sim.cache.Keys <= slots && sim.writes.Keys <= slots
    && forall i :: 0 <= i < |sim.snapshots| ==>
        sim.snapshots[i].cache.Keys <= slots && sim.snapshots[i].writes.Keys <= slots
  }

  lemma {:induction false} PlayOnlyTouched(r: Remote, client: Client, n: nat)
    ensures OnlyTouched(Play(r, client, n).sim, Touched(Play(r, client, n).ops))
  {
    if n > 0 {
      PlayOnlyTouched(r, client, n - 1);
      var t := Play(r, client, n - 1);
      if client(t.answers).Some? {
        TouchedAppend(t.ops, client(t.answers).value);
        StepOnlyTouched(r, t.sim, client(t.answers).value, Touched(t.ops));
      }
    }
  }

  lemma StepOnlyTouched(r: Remote, sim: Sim, op: Op, slots: set<SlotKey>)
    requires OnlyTouched(sim, slots)
    ensures OnlyTouched(Step(r, sim, op).0, slots + SlotOf(op))
  {
    match op {
      case GetState(k) => ReadOnlyTouched(r, sim, k, slots);
      case GetBoth(k) => ReadOnlyTouched(r, sim, k, slots);
      case SetState(k, _) => ReadOnlyTouched(r, sim, k, slots);
      case Snapshot => assert slots + SlotOf(op) == slots;
      case Revert(id) => assert slots + SlotOf(op) == slots;
      case _ => assert slots + SlotOf(op) == slots;
    }
  }

  lemma ReadOnlyTouched(r: Remote, sim: Sim, k: SlotKey, slots: set<SlotKey>)
    requires OnlyTouched(sim, slots)
    ensures OnlyTouched(Read(r, sim, k).0, slots + {k})
  {
    var sim' := Read(r, sim, k).0;
    assert sim'.snapshots == sim.snapshots && sim'.writes == sim.writes;
  }

  /** A different value. */
  function Other(v: Word): Word {
    if v == 0 then 1 else 0
  }

  function Changed(r: Remote, k: SlotKey): Remote {
    r.(storage := Put(r.storage, k, Other(r.storage(k))))
  }

  /** The two states differ at k and nowhere else. */
  ghost predicate DifferAt(r: Remote, r': Remote, k: SlotKey) {
    r.balance == r'.balance && forall q :: SameAt(r, r', q) <==> q != k
  }

  lemma Betrayed(r: Remote, r': Remote, sim: Sim, sim': Sim, op: Op, k: SlotKey)
    requires DifferAt(r, r', k) && k in SlotOf(op) && k !in sim.cache && k !in sim.writes
    requires sim'.cache == sim.cache && sim'.writes == sim.writes
    ensures Step(r, sim, op).1 != Step(r', sim', op).1
  {
    assert !SameAt(r, r', k);
    match op {
      case GetState(_) =>
      case GetBoth(_) =>
      case SetState(_, _) =>
    }
  }

  lemma PlayStep(r: Remote, client: Client, n: nat)
    requires n > 0
    ensures var t, t' := Play(r, client, n - 1), Play(r, client, n);
            match client(t.answers)
            case None => t' == t
            case Some(op) => t'.answers == t.answers + [Step(r, t.sim, op).1]
                             && Touched(t'.ops) == Touched(t.ops) + SlotOf(op)
  {
    var t := Play(r, client, n - 1);
    if client(t.answers).Some? { TouchedAppend(t.ops, client(t.answers).value); }
  }

  lemma FirstLook(r: Remote, r': Remote, client: Client, n: nat, k: SlotKey, t: Trace, t': Trace)
    requires n > 0 && DifferAt(r, r', k) && t == Play(r, client, n - 1) && t' == Play(r', client, n - 1)
    requires SameTrace(r, r', t, t')
    requires client(t.answers).Some? && k in SlotOf(client(t.answers).value) && k !in t.sim.cache && k !in t.sim.writes
    ensures Play(r, client, n).answers != Play(r', client, n).answers
  {
    PlayStep(r, client, n);
    PlayStep(r', client, n);
    var op := client(t.answers).value;
    Betrayed(r, r', t.sim, t'.sim, op, k);
    assert (t.answers + [Step(r, t.sim, op).1])[|t.answers|] != (t.answers + [Step(r', t'.sim, op).1])[|t.answers|];
  }

  /** A slot touched for the first time is the one the latest call looks at. */
  lemma NewTouch(r: Remote, client: Client, n: nat, k: SlotKey)
    requires n > 0 && k in Touched(Play(r, client, n).ops) && k !in Touched(Play(r, client, n - 1).ops)
    ensures var t := Play(r, client, n - 1);
            client(t.answers).Some? && k in SlotOf(client(t.answers).value)
  {
    PlayStep(r, client, n);
  }

  lemma Untouched(r: Remote, r': Remote, client: Client, n: nat, k: SlotKey)
    requires DifferAt(r, r', k) && k !in Touched(Play(r, client, n).ops)
    ensures SameTrace(r, r', Play(r, client, n), Play(r', client, n))
    ensures k !in Play(r, client, n).sim.cache && k !in Play(r, client, n).sim.writes
  {
    SameRun(r, r', client, n, n);
    PlayOnlyTouched(r, client, n);
    assert k !in Play(r, client, n).sim.cache.Keys && k !in Play(r, client, n).sim.writes.Keys;
  }

  lemma FirstTouch(r: Remote, r': Remote, client: Client, n: nat, k: SlotKey)
    requires n > 0 && DifferAt(r, r', k)
    requires k in Touched(Play(r, client, n).ops) && k !in Touched(Play(r, client, n - 1).ops)
    ensures Play(r, client, n).answers != Play(r', client, n).answers
  {
    NewTouch(r, client, n, k);
    Untouched(r, r', client, n - 1, k);
    FirstLook(r, r', client, n, k, Play(r, client, n - 1), Play(r', client, n - 1));
  }

  lemma TouchNeedsRound(r: Remote, client: Client, n: nat, k: SlotKey)
    requires k in Touched(Play(r, client, n).ops)
    ensures n > 0
  {
  }

  /** The first call that looks at k betrays a change of k. */
  lemma {:induction false} ChangeShows(r: Remote, r': Remote, client: Client, n: nat, k: SlotKey)
    requires DifferAt(r, r', k) && k in Touched(Play(r, client, n).ops)
    ensures Play(r, client, n).answers != Play(r', client, n).answers
    decreases n
  {
    TouchNeedsRound(r, client, n, k);
    if k in Touched(Play(r, client, n - 1).ops) {
      ChangeShows(r, r', client, n - 1, k);
      NextRoundDiffers(r, r', client, n);
    } else {
      FirstTouch(r, r', client, n, k);
    }
  }

  lemma NextRoundDiffers(r: Remote, r': Remote, client: Client, n: nat)
    requires n > 0 && Play(r, client, n - 1).answers != Play(r', client, n - 1).answers
    ensures Play(r, client, n).answers != Play(r', client, n).answers
  {
    AnswersExtend(r, r', client, n - 1);
  }

  /** Once answers differ they keep differing. */
  lemma AnswersExtend(r: Remote, r': Remote, client: Client, n: nat)
    requires Play(r, client, n).answers != Play(r', client, n).answers
    ensures Play(r, client, n + 1).answers != Play(r', client, n + 1).answers
  {
    SameLength(r, client, n);
    SameLength(r', client, n);
    var x, y := Play(r, client, n).answers, Play(r', client, n).answers;
    var x', y' := Play(r, client, n + 1).answers, Play(r', client, n + 1).answers;
    assert x <= x' && y <= y';
    if x' == y' {
      ShorterStopped(r, r', client, n);
      assert false;
    }
  }

  lemma {:induction false} SameLength(r: Remote, client: Client, n: nat)
    ensures |Play(r, client, n).answers| <= n
    ensures |Play(r, client, n).answers| < n ==> client(Play(r, client, n).answers).None?
  {
    if n > 0 { SameLength(r, client, n - 1); }
  }

  /** Two runs whose answers agree after one more round agreed already before. */
  lemma ShorterStopped(r: Remote, r': Remote, client: Client, n: nat)
    requires Play(r, client, n + 1).answers == Play(r', client, n + 1).answers
    ensures Play(r, client, n).answers == Play(r', client, n).answers
  {
    SameLength(r, client, n);
    SameLength(r', client, n);
    SameLength(r, client, n + 1);
    SameLength(r', client, n + 1);
    var x, y := Play(r, client, n).answers, Play(r', client, n).answers;
    var z := Play(r, client, n + 1).answers;
    assert x <= z && y <= z;
    if |z| == n + 1 {
      assert x == z[..n] && y == z[..n];
    }
  }

  // ---------------------------------------------------------------------------
  // Balances are not recorded
  // ---------------------------------------------------------------------------

  /** Every fetched balance is still the remote one, in every layer. */
  ghost predicate Unspent(r: Remote, sim: Sim) {
    && (forall a :: a in sim.accounts ==> sim.accounts[a].balance == r.balance(a))
    && forall i, a :: 0 <= i < |sim.snapshots| && a in sim.snapshots[i].accounts ==>
        sim.snapshots[i].accounts[a].balance == r.balance(a)
  }

  predicate BalanceOp(op: Op) {
    op.GetBalance? || op.AddBalance? || op.SubBalance?
  }

  lemma BalanceOpAsks(op: Op)
    ensures BalanceOp(op) <==> AccountOf(op) != {}
  {
    if BalanceOp(op) { assert op.a in AccountOf(op); }
  }

  lemma StepUnspent(r: Remote, sim: Sim, op: Op)
    requires Unspent(r, sim) && !BalanceOp(op)
    ensures Unspent(r, Step(r, sim, op).0)
  {
  }

  lemma BalanceAnswer(r: Remote, sim: Sim, op: Op)
    requires Unspent(r, sim) && BalanceOp(op)
    ensures Step(r, sim, op).1 == One(r.balance(op.a))
  {
    assert BalanceOf(r, sim, op.a) == r.balance(op.a);
    match op {
      case GetBalance(_) =>
      case AddBalance(_, _) =>
      case SubBalance(_, _) =>
    }
  }

  lemma {:induction false} PlayUnspent(r: Remote, client: Client, n: nat)
    requires Asked(Play(r, client, n).ops) == {}
    ensures Unspent(r, Play(r, client, n).sim)
  {
    if n > 0 {
      TouchedStep(r, client, n);
      PlayUnspent(r, client, n - 1);
      var t := Play(r, client, n - 1);
      if client(t.answers).Some? {
        AskedAppend(t.ops, client(t.answers).value);
        BalanceOpAsks(client(t.answers).value);
        StepUnspent(r, t.sim, client(t.answers).value);
      }
    }
  }

  /** One unit more on every account; the same storage. */
  function Richer(r: Remote): Remote {
    r.(balance := a => OneMore(r.balance(a)))
  }

  function OneMore(n: nat): nat {
    n + 1
  }

  lemma FirstAskBetrays(r: Remote, sim: Sim, sim': Sim, op: Op)
    requires Unspent(r, sim) && Unspent(Richer(r), sim') && AccountOf(op) != {}
    ensures Step(r, sim, op).1 != Step(Richer(r), sim', op).1
  {
    BalanceOpAsks(op);
    BalanceAnswer(r, sim, op);
    BalanceAnswer(Richer(r), sim', op);
  }

  lemma RicherRun(r: Remote, client: Client, n: nat)
    requires Asked(Play(r, client, n).ops) == {}
    ensures Play(Richer(r), client, n).ops == Play(r, client, n).ops
        && Play(Richer(r), client, n).answers == Play(r, client, n).answers
    ensures Unspent(r, Play(r, client, n).sim) && Unspent(Richer(r), Play(Richer(r), client, n).sim)
  {
    assert AgreesOn(r, Richer(r), Touched(Play(r, client, n).ops));
    SameRun(r, Richer(r), client, n, n);
    PlayUnspent(r, client, n);
    PlayUnspent(Richer(r), client, n);
  }

  lemma FirstAsk(r: Remote, client: Client, n: nat)
    requires n > 0 && Asked(Play(r, client, n).ops) != {} && Asked(Play(r, client, n - 1).ops) == {}
    ensures Play(r, client, n).answers != Play(Richer(r), client, n).answers
  {
    RicherRun(r, client, n - 1);
    NewAsk(r, client, n);
    AskBetrays(r, client, n, Play(r, client, n - 1), Play(Richer(r), client, n - 1));
  }

  lemma NewAsk(r: Remote, client: Client, n: nat)
    requires n > 0 && Asked(Play(r, client, n).ops) != {} && Asked(Play(r, client, n - 1).ops) == {}
    ensures var t := Play(r, client, n - 1);
            client(t.answers).Some? && AccountOf(client(t.answers).value) != {}
  {
    var t := Play(r, client, n - 1);
    if client(t.answers).Some? { AskedAppend(t.ops, client(t.answers).value); }
  }

  lemma AskBetrays(r: Remote, client: Client, n: nat, t: Trace, t': Trace)
    requires n > 0 && t == Play(r, client, n - 1) && t' == Play(Richer(r), client, n - 1) && t.answers == t'.answers
    requires Unspent(r, t.sim) && Unspent(Richer(r), t'.sim)
    requires client(t.answers).Some? && AccountOf(client(t.answers).value) != {}
    ensures Play(r, client, n).answers != Play(Richer(r), client, n).answers
  {
    var op := client(t.answers).value;
    PlayStep(r, client, n);
    PlayStep(Richer(r), client, n);
    FirstAskBetrays(r, t.sim, t'.sim, op);
    assert (t.answers + [Step(r, t.sim, op).1])[|t.answers|] != (t.answers
        + [Step(Richer(r), t'.sim, op).1])[|t.answers|];
  }

  /** Any balance call betrays a change of all balances. */
  lemma {:induction false} BalanceShows(r: Remote, client: Client, n: nat)
    requires Asked(Play(r, client, n).ops) != {}
    ensures Play(r, client, n).answers != Play(Richer(r), client, n).answers
    decreases n
  {
    AskNeedsRound(r, client, n);
    if Asked(Play(r, client, n - 1).ops) != {} {
      BalanceShows(r, client, n - 1);
      NextRoundDiffers(r, Richer(r), client, n);
    } else {
      FirstAsk(r, client, n);
    }
  }

  lemma AskNeedsRound(r: Remote, client: Client, n: nat)
    requires Asked(Play(r, client, n).ops) != {}
    ensures n > 0
  {
  }

  /** Exactly when the read set protects a simulation: re-running the client against any
      shard state with the same values on the recorded read set is certain to repeat all
      answers, if and only if every slot a call looked at is still in the read set at the
      end and no call looked at a balance. */
  lemma ReadSetSufficesIff(r: Remote, client: Client, n: nat)
    ensures (forall r' :: AgreesOn(r, r', Play(r, client, n).sim.cache.Keys) ==>
        Play(r', client, n).answers == Play(r, client, n).answers)
       <==> Touched(Play(r, client, n).ops) <= Play(r, client, n).sim.cache.Keys && Asked(Play(r, client, n).ops) == {}
  {
    var t := Play(r, client, n);
    if Asked(t.ops) != {} {
      BalanceShows(r, client, n);
      assert AgreesOn(r, Richer(r), t.sim.cache.Keys);
    } else if Touched(t.ops) <= t.sim.cache.Keys {
      forall r' | AgreesOn(r, r', t.sim.cache.Keys) ensures Play(r', client, n).answers == t.answers {
        SameRun(r, r', client, n, n);
      }
    } else {
      var k :| k in Touched(t.ops) && k !in t.sim.cache.Keys;
      assert AgreesOn(r, Changed(r, k), t.sim.cache.Keys);
      ChangeShows(r, Changed(r, k), client, n, k);
    }
  }

  // ---------------------------------------------------------------------------
  // Without reverts
  // ---------------------------------------------------------------------------

  predicate NoRevert(ops: seq<Op>) {
    forall i :: 0 <= i < |ops| ==> !ops[i].Revert?
  }

  lemma StepKeepsReads(r: Remote, sim: Sim, op: Op)
    requires !op.Revert? && SimInv(r, sim)
    ensures Step(r, sim, op).0.cache.Keys == sim.cache.Keys + SlotOf(op)
  {
  }

  lemma {:induction false} NoRevertReads(r: Remote, client: Client, n: nat)
    requires NoRevert(Play(r, client, n).ops)
    ensures SimInv(r, Play(r, client, n).sim)
    ensures Play(r, client, n).sim.cache.Keys == Touched(Play(r, client, n).ops)
  {
    if n > 0 {
      var t := Play(r, client, n - 1);
      if client(t.answers).Some? {
        var op := client(t.answers).value;
        assert Play(r, client, n).ops[|t.ops|] == op;
        assert forall i :: 0 <= i < |t.ops| ==> Play(r, client, n).ops[i] == t.ops[i];
        NoRevertReads(r, client, n - 1);
        TouchedAppend(t.ops, op);
        StepInv(r, t.sim, op);
        StepKeepsReads(r, t.sim, op);
      } else {
        NoRevertReads(r, client, n - 1);
      }
    }
  }

  /** A simulation without reverts is a function of its read set: against any state that
      agrees on it, and on the balances asked for if there are any, the same calls get the
      same answers and leave the same read set, write set and old values. */
  lemma SimulationDependsOnReadSet(r: Remote, r': Remote, client: Client, n: nat)
    requires NoRevert(Play(r, client, n).ops) && AgreesOn(r, r', Play(r, client, n).sim.cache.Keys)
    requires BalancesAgree(r, r', Asked(Play(r, client, n).ops))
    ensures var t, t' := Play(r, client, n), Play(r', client, n);
            && t'.ops == t.ops && t'.answers == t.answers
            && t'.sim.cache == t.sim.cache && t'.sim.writes == t.sim.writes && t'.sim.olds == t.sim.olds
  {
    NoRevertReads(r, client, n);
    SameRun(r, r', client, n, n);
  }

  /** A client that asks for one balance. */
  function Ask(a: Address): Client {
    (answers: seq<Answer>) => if |answers| == 0 then Some(GetBalance(a)) else None
  }

  /** Without reverts it still fails for balances: they leave no trace in the read set. */
  lemma BalanceIsNotRecorded(r: Remote, a: Address)
    ensures NoRevert(Play(r, Ask(a), 1).ops)
        && Touched(Play(r, Ask(a), 1).ops) == {} == Play(r, Ask(a), 1).sim.cache.Keys
    ensures Richer(r).storage == r.storage && Play(Richer(r), Ask(a), 1).answers != Play(r, Ask(a), 1).answers
  {
    var t, t' := Play(r, Ask(a), 1), Play(Richer(r), Ask(a), 1);
    assert Play(r, Ask(a), 0) == Trace(NEW_SIM, [], []) == Play(Richer(r), Ask(a), 0);
    assert t.ops == [GetBalance(a)] && t.ops[..0] == [];
    assert t.answers == [One(r.balance(a))] && t'.answers == [One(r.balance(a) + 1)];
  }

  /** A client that takes a snapshot, reads slot k and reverts. */
  function Peek(k: SlotKey): Client {
    (answers: seq<Answer>) =>
      if |answers| == 0 then Some(Snapshot)
      else if |answers| == 1 then Some(GetState(k))
      else if |answers| == 2 then Some(Revert(0))
      else None
  }

  lemma PeekRun(r: Remote, k: SlotKey)
    ensures var t := Play(r, Peek(k), 3);
            t.sim.cache == map[] && t.answers == [One(0), One(r.storage(k)), One(0)]
  {
    var t0 := Play(r, Peek(k), 0);
    var t1 := Play(r, Peek(k), 1);
    assert t1 == Trace(NEW_SIM.(snapshots := [Snap(map[], map[], map[])]), [Snapshot], [One(0)]);
    var t2 := Play(r, Peek(k), 2);
    assert t2.answers == [One(0), One(r.storage(k))] && t2.sim.snapshots == t1.sim.snapshots;
  }

  /** With reverts this fails: a read made inside a reverted call is forgotten, though
      the client has seen its answer. */
  lemma RevertForgetsReads(r: Remote, k: SlotKey)
    ensures AgreesOn(r, Changed(r, k), Play(r, Peek(k), 3).sim.cache.Keys)
    ensures Play(Changed(r, k), Peek(k), 3).answers != Play(r, Peek(k), 3).answers
  {
    PeekRun(r, k);
    PeekRun(Changed(r, k), k);
    assert Play(r, Peek(k), 3).answers[1] != Play(Changed(r, k), Peek(k), 3).answers[1];
  }

  // ---------------------------------------------------------------------------
  // The shard's tracker
  // ---------------------------------------------------------------------------

  /** TrackingStateDB: the current storage of the state it wraps, plus first reads and
      last writes. */
  datatype Tracker = Tracker(inner: map<SlotKey, Word>, cache: map<SlotKey, Word>, writes: map<SlotKey, Word>)

  function Recorded(t: Tracker, k: SlotKey): Tracker {
    if k in t.cache then t else t.(cache := t.cache[k := Load(t.inner, k)])
  }

  function TrackStep(init: map<SlotKey, Word>, t: Tracker, op: Op): (Tracker, Answer) {
    match op
    case GetState(k) => (Recorded(t, k), One(Load(t.inner, k)))
    case GetBoth(k) => (Recorded(t, k), Two(Load(t.inner, k), Load(init, k)))
    case SetState(k, value) =>
      var t1 := Recorded(t, k);
      (t1.(inner := t.inner[k := value], writes := t1.writes[k := value]), One(Load(t.inner, k)))
    case _ => (t, One(0))
  }

  function TrackSteps(init: map<SlotKey, Word>, ops: seq<Op>): (Tracker, seq<Answer>) {
    if ops == [] then (Tracker(init, map[], map[]), [])
    else
      var n := |ops| - 1;
      var (t, answers) := TrackSteps(init, ops[..n]);
      var (t', a) := TrackStep(init, t, ops[n]);
      (t', answers + [a])
  }

  predicate StorageOp(op: Op) {
    op.GetState? || op.GetBoth? || op.SetState?
  }

  /** The remote state holds the given storage. */
  ghost predicate Holds(r: Remote, init: map<SlotKey, Word>) {
    forall k :: r.storage(k) == Load(init, k)
  }

  ghost predicate Tracks(init: map<SlotKey, Word>, sim: Sim, t: Tracker) {
    && t.cache == sim.cache && t.writes == sim.writes
    && t.inner == init + sim.writes
  }

  lemma TrackReadAgrees(r: Remote, init: map<SlotKey, Word>, sim: Sim, t: Tracker, k: SlotKey)
    requires Holds(r, init) && SimInv(r, sim) && Tracks(init, sim, t)
    ensures Read(r, sim, k).1 == Load(t.inner, k)
    ensures Tracks(init, Read(r, sim, k).0, Recorded(t, k))
    ensures k in Read(r, sim, k).0.cache && Read(r, sim, k).0.cache[k] == Load(init, k)
  {
    assert k in sim.cache ==> sim.cache[k] == r.storage(k);
    assert r.storage(k) == Load(init, k);
    assert k in sim.writes ==> k in sim.cache;
  }

  lemma TrackStepAgrees(r: Remote, init: map<SlotKey, Word>, sim: Sim, t: Tracker, op: Op)
    requires Holds(r, init) && SimInv(r, sim) && Tracks(init, sim, t) && StorageOp(op)
    ensures Tracks(init, Step(r, sim, op).0, TrackStep(init, t, op).0)
    ensures Step(r, sim, op).1 == TrackStep(init, t, op).1
  {
    TrackReadAgrees(r, init, sim, t, op.k);
    match op {
      case GetState(_) =>
      case GetBoth(_) =>
      case SetState(k, value) => assert (init + sim.writes)[k := value] == init + sim.writes[k := value];
    }
  }

  /** On storage reads and writes alone, the shard's tracker and the orchestrator's
      simulation give the same answers and record the same read and write sets, with the
      same old values; and the write set laid over the initial storage is the final
      storage. */
  lemma {:induction false} TrackersAgree(r: Remote, init: map<SlotKey, Word>, ops: seq<Op>)
    requires Holds(r, init) && forall i :: 0 <= i < |ops| ==> StorageOp(ops[i])
    ensures Steps(r, ops).1 == TrackSteps(init, ops).1
    ensures Tracks(init, Steps(r, ops).0, TrackSteps(init, ops).0)
    ensures var sim, t := Steps(r, ops).0, TrackSteps(init, ops).0;
            forall k :: k in t.writes ==> k in t.cache && k in sim.olds && t.cache[k] == sim.olds[k] == Load(init, k)
  {
    StepsInv(r, ops);
    if ops != [] {
      var n := |ops| - 1;
      TrackersAgree(r, init, ops[..n]);
      StepsInv(r, ops[..n]);
      TrackStepAgrees(r, init, Steps(r, ops[..n]).0, TrackSteps(init, ops[..n]).0, ops[n]);
    } else {
      assert init + map[] == init;
    }
  }
}
