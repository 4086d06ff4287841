/** Account state, the per-transaction state diffs and the diff a block builder
    accumulates beside the state. */
module StateDiff {
  import opened Prelude

  type Address = nat
  type Code = nat

  datatype Info = Info(balance: nat, nonce: nat, code: Code)

  const EMPTY := Info(0, 0, 0)

  /** Non-zero slots only. */
  type Storage = map<nat, nat>

  datatype Account = Account(info: Info, storage: Storage)

  type State = map<Address, Account>

  /** An account in a diff: its new info, its status flags and the slots it
      mentions with their present values. */
  datatype Change = Change(info: Info, touched: bool, created: bool, destroyed: bool, storage: map<nat, nat>)

  type Diff = map<Address, Change>

  function Get<T>(m: map<Address, T>, a: Address): Option<T> {
    if a in m then Some(m[a]) else None
  }

  function SlotsOf(a: Option<Account>): Storage {
    if a.Some? then a.value.storage else map[]
  }

  function InfoOf(a: Option<Account>): Info {
    if a.Some? then a.value.info else EMPTY
  }

  function Slot(s: Storage, k: nat): nat {
    if k in s then s[k] else 0
  }

  function SetSlots(s: Storage, slots: map<nat, nat>): Storage {
    map k | k in (s + slots) && (s + slots)[k] != 0 :: (s + slots)[k]
  }

  /** Whether committing the change removes the account. */
  predicate Removes(d: Change) {
    (d.info == EMPTY && !d.created) || d.destroyed
  }

  /** Committing one account's change to that account. */
  function CommitAccount(a: Option<Account>, d: Change): Option<Account> {
    if !d.touched then a
    else if Removes(d) then None
    else Some(Account(d.info, SetSlots(if d.created then map[] else SlotsOf(a), d.storage)))
  }

  function CommitIfChanged(a: Option<Account>, d: Option<Change>): Option<Account> {
    if d.Some? then CommitAccount(a, d.value) else a
  }

  /** `StateCommit::commit`, account by account. */
  function Commit(s: State, diff: Diff): State {
    map a | a in s.Keys + diff.Keys && CommitIfChanged(Get(s, a), Get(diff, a)).Some? ::
      CommitIfChanged(Get(s, a), Get(diff, a)).value
  }

  /** `StateDiff::apply_diff` on one account. */
  function MergeAccount(acc: Option<Change>, d: Change): Change {
    match acc
    case None => d
    case Some(prior) =>
      Change(d.info, prior.touched || d.touched, prior.created || d.created,
             prior.destroyed || d.destroyed, prior.storage + d.storage)
  }

  function ApplyDiff(acc: Diff, diff: Diff): Diff {
    map a | a in acc.Keys + diff.Keys :: if a in diff then MergeAccount(Get(acc, a), diff[a]) else acc[a]
  }

  /** `modify_account` with a balance increase. */
  function Credit(a: Option<Account>, amount: nat): Account {
    var info := InfoOf(a);
    Account(info.(balance := info.balance + amount), SlotsOf(a))
  }

  /** `StateDiff::apply_account_change` on one account. */
  function ChangeInfo(acc: Option<Change>, info: Info): Change {
    match acc
    case None => Change(info, true, false, false, map[])
    case Some(prior) => prior.(info := info)
  }

  /** `StateDiff::apply_diff` as it runs: entry by entry, in any order. */
  method ApplyDiffByEntry(acc: Diff, diff: Diff) returns (r: Diff)
    ensures r == ApplyDiff(acc, diff)
  {
    r := acc;
    var left := diff.Keys;
    while left != {}
      invariant left <= diff.Keys
      invariant forall a: Address ::
                  Get(r, a) == if a in diff && a !in left then Some(MergeAccount(Get(acc, a), diff[a])) else Get(acc, a)
    {
      var a :| a in left;
      if a in r {
        var entry := r[a];
        r := r[a := Change(diff[a].info, entry.touched || diff[a].touched, entry.created || diff[a].created,
                           entry.destroyed || diff[a].destroyed, entry.storage + diff[a].storage)];
      } else {
        r := r[a := diff[a]];
      }
      left := left - {a};
    }
    EqualByGet(r, ApplyDiff(acc, diff));
  }

  /** `commit` as it runs: entry by entry, in any order. */
  method CommitByEntry(s: State, diff: Diff) returns (r: State)
    ensures r == Commit(s, diff)
  {
    r := s;
    var left := diff.Keys;
    while left != {}
      invariant left <= diff.Keys
      invariant forall a: Address ::
                  Get(r, a) == if a in left then Get(s, a) else CommitIfChanged(Get(s, a), Get(diff, a))
    {
      var a :| a in left;
      var d := diff[a];
      if d.touched {
        if (d.info == EMPTY && !d.created) || d.destroyed {
          r := r - {a};
        } else {
          var storage := if d.created then map[] else SlotsOf(Get(r, a));
          r := r[a := Account(d.info, SetSlots(storage, d.storage))];
        }
      }
      left := left - {a};
    }
    EqualByGet(r, Commit(s, diff));
  }

  // ----- when the accumulated diff still describes the state -----

  /** A change that only records what was loaded, in state `a`. */
  predicate LoadedOnly(d: Change, a: Option<Account>) {
    && !d.touched && !d.created && !d.destroyed
    && d.info == InfoOf(a)
    && forall k :: k in d.storage ==> d.storage[k] == Slot(SlotsOf(a), k)
  }

  predicate NonZero(a: Option<Account>) {
    forall k :: k in SlotsOf(a) ==> SlotsOf(a)[k] != 0
  }

  /** The accumulated change `acc` takes the account from `base` to `now`. */
  predicate Tracks(base: Option<Account>, acc: Option<Change>, now: Option<Account>) {
    && NonZero(base)
    && CommitIfChanged(base, acc) == now
    && (acc.Some? && !acc.value.touched ==> LoadedOnly(acc.value, base))
  }

  /** What the accumulated slots add up to on the storage the merged change starts
      from. */
  function Leftover(base: Option<Account>, prior: Change, d: Change): Storage {
    SetSlots(if prior.created || d.created then map[] else SlotsOf(base), prior.storage)
  }

  /** When merging a transaction's change loses nothing: an account destroyed
      earlier in the block stays dead, an account created earlier in the block is
      not emptied, and storage that starts afresh is not polluted by slots written
      before. */
  predicate Composable(base: Option<Account>, acc: Option<Change>, now: Option<Account>, d: Change) {
    acc.Some? && d.touched && !d.destroyed ==>
      if acc.value.destroyed then Removes(d)
      else if Removes(d) then !acc.value.created
      else (d.created || now.None?) ==> forall k :: k in Leftover(base, acc.value, d) ==> k in d.storage
  }

  lemma SetSlotsOfNothing(s: Storage, slots: map<nat, nat>)
    requires forall k :: k in s ==> s[k] != 0
    requires forall k :: k in slots ==> slots[k] == Slot(s, k)
    ensures SetSlots(s, slots) == s
  {
  }

  lemma SetSlotsTwice(s: Storage, a: map<nat, nat>, b: map<nat, nat>)
    ensures SetSlots(SetSlots(s, a), b) == SetSlots(s, a + b)
  {
    var l, r := SetSlots(SetSlots(s, a), b), SetSlots(s, a + b);
    forall k
      ensures k in l <==> k in r
      ensures k in l ==> l[k] == r[k]
    {
    }
  }

  lemma SetSlotsFromNothingIff(s: Storage, slots: map<nat, nat>)
    requires forall k :: k in s ==> s[k] != 0
    ensures SetSlots(s, slots) == SetSlots(map[], slots) <==> forall k :: k in s ==> k in slots
  {
    if k :| k in s && k !in slots {
      assert k in SetSlots(s, slots) && k !in SetSlots(map[], slots);
    }
  }

  lemma SetSlotsNonZero(s: Storage, slots: map<nat, nat>)
    ensures forall k :: k in SetSlots(s, slots) ==> SetSlots(s, slots)[k] != 0
  {
  }

  lemma MergeLoadedOnly(base: Option<Account>, acc: Option<Change>, now: Option<Account>, d: Change)
    requires Tracks(base, acc, now) && LoadedOnly(d, now)
    ensures Tracks(base, Some(MergeAccount(acc, d)), now)
  {
    if acc.Some? && acc.value.touched && !Removes(acc.value) {
      var start := if acc.value.created then map[] else SlotsOf(base);
      SetSlotsTwice(start, acc.value.storage, d.storage);
      SetSlotsNonZero(start, acc.value.storage);
      SetSlotsOfNothing(now.value.storage, d.storage);
    }
  }

  /** One transaction, one account: the merged change describes the new state
      exactly when the changes are composable. */
  lemma MergeIsExactIff(base: Option<Account>, acc: Option<Change>, now: Option<Account>, d: Change)
    requires Tracks(base, acc, now)
    requires !d.touched ==> LoadedOnly(d, now)
    ensures CommitAccount(base, MergeAccount(acc, d)) == CommitAccount(now, d) <==> Composable(base, acc, now, d)
    ensures Composable(base, acc, now, d) ==> Tracks(base, Some(MergeAccount(acc, d)), CommitAccount(now, d))
  {
    if !d.touched {
      MergeLoadedOnly(base, acc, now, d);
    } else if acc.Some? && !d.destroyed && !acc.value.destroyed && !Removes(d) {
      var prior := acc.value;
      var start := if prior.created || d.created then map[] else SlotsOf(base);
      SetSlotsTwice(start, prior.storage, d.storage);
      SetSlotsNonZero(start, prior.storage);
      if d.created || now.None? {
        SetSlotsFromNothingIff(Leftover(base, prior, d), d.storage);
      } else if !prior.touched {
        SetSlotsOfNothing(SlotsOf(base), prior.storage);
      }
    }
  }

  /** When a reward's change loses nothing. */
  predicate Creditable(base: Option<Account>, acc: Option<Change>) {
    acc.Some? ==>
      && acc.value.touched && !acc.value.destroyed
      && (Removes(acc.value) ==> SetSlots(SlotsOf(base), acc.value.storage) == map[])
  }

  lemma RewardIsExactIff(base: Option<Account>, acc: Option<Change>, now: Option<Account>, amount: nat)
    requires Tracks(base, acc, now) && amount > 0
    ensures var next := Credit(now, amount);
            && (CommitAccount(base, ChangeInfo(acc, next.info)) == Some(next) <==> Creditable(base, acc))
            && (Creditable(base, acc) ==> Tracks(base, Some(ChangeInfo(acc, next.info)), Some(next)))
  {
    if acc.None? {
      SetSlotsOfNothing(SlotsOf(base), map[]);
    }
  }

  // ----- whole blocks -----

  /** What a block builder does to its state and diff: it includes a transaction,
      or pays a reward. */
  datatype Step = Transaction(diff: Diff) | Reward(address: Address, amount: nat)

  datatype Progress = Progress(state: State, diff: Diff)

  function Advance(p: Progress, step: Step): Progress {
    match step
    case Transaction(diff) => Progress(Commit(p.state, diff), ApplyDiff(p.diff, diff))
    case Reward(a, amount) =>
      if amount == 0 then p
      else
        var next := Credit(Get(p.state, a), amount);
        Progress(p.state[a := next], p.diff[a := ChangeInfo(Get(p.diff, a), next.info)])
  }

  /** The builder's progress after `steps`, from an empty diff. */
  function After(base: State, steps: seq<Step>): Progress {
    if steps == [] then Progress(base, map[])
    else Advance(After(base, steps[..|steps| - 1]), steps[|steps| - 1])
  }

  /** Applying the accumulated diff to the initial state gives the current one. */
  predicate Describes(base: State, p: Progress) {
    Commit(base, p.diff) == p.state
  }

  ghost predicate TracksAll(base: State, p: Progress) {
    forall a: Address :: Tracks(Get(base, a), Get(p.diff, a), Get(p.state, a))
  }

  /** Untouched accounts in an execution's diff only record what was loaded. */
  predicate HonestStep(p: Progress, step: Step) {
    step.Transaction? ==>
      forall a :: a in step.diff && !step.diff[a].touched ==> LoadedOnly(step.diff[a], Get(p.state, a))
  }

  predicate StepIsExact(base: State, p: Progress, step: Step) {
    match step
    case Transaction(diff) =>
      forall a :: a in diff ==> Composable(Get(base, a), Get(p.diff, a), Get(p.state, a), diff[a])
    case Reward(a, amount) => amount > 0 ==> Creditable(Get(base, a), Get(p.diff, a))
  }

  lemma CommitGet(s: State, diff: Diff, a: Address)
    ensures Get(Commit(s, diff), a) == CommitIfChanged(Get(s, a), Get(diff, a))
  {
  }

  lemma EqualByGet<T>(s: map<Address, T>, t: map<Address, T>)
    requires forall a: Address :: Get(s, a) == Get(t, a)
    ensures s == t
  {
    forall a: Address
      ensures a in s <==> a in t
      ensures a in s ==> s[a] == t[a]
    {
      assert Get(s, a) == Get(t, a);
    }
  }

  lemma TrackedIsDescribed(base: State, p: Progress)
    requires TracksAll(base, p)
    ensures Describes(base, p)
  {
    forall a: Address
      ensures Get(Commit(base, p.diff), a) == Get(p.state, a)
    {
      CommitGet(base, p.diff, a);
    }
    EqualByGet(Commit(base, p.diff), p.state);
  }

  lemma TransactionIsExactIff(base: State, p: Progress, diff: Diff)
    requires TracksAll(base, p) && HonestStep(p, Transaction(diff))
    ensures Describes(base, Advance(p, Transaction(diff))) <==> StepIsExact(base, p, Transaction(diff))
    ensures StepIsExact(base, p, Transaction(diff)) ==> TracksAll(base, Advance(p, Transaction(diff)))
  {
    var next := Advance(p, Transaction(diff));
    forall a: Address
      ensures a in diff ==>
                && (Get(Commit(base, next.diff), a) == Get(next.state, a)
                    <==> Composable(Get(base, a), Get(p.diff, a), Get(p.state, a), diff[a]))
                && (Composable(Get(base, a), Get(p.diff, a), Get(p.state, a), diff[a])
                    ==> Tracks(Get(base, a), Get(next.diff, a), Get(next.state, a)))
      ensures a !in diff ==> Tracks(Get(base, a), Get(next.diff, a), Get(next.state, a))
    {
      CommitGet(base, next.diff, a);
      CommitGet(p.state, diff, a);
      assert Tracks(Get(base, a), Get(p.diff, a), Get(p.state, a));
      if a in diff {
        MergeIsExactIff(Get(base, a), Get(p.diff, a), Get(p.state, a), diff[a]);
      }
    }
    if StepIsExact(base, p, Transaction(diff)) {
      TrackedIsDescribed(base, next);
    }
  }

  lemma RewardStepIsExactIff(base: State, p: Progress, address: Address, amount: nat)
    requires TracksAll(base, p)
    ensures Describes(base, Advance(p, Reward(address, amount))) <==> StepIsExact(base, p, Reward(address, amount))
    ensures StepIsExact(base, p, Reward(address, amount)) ==> TracksAll(base, Advance(p, Reward(address, amount)))
  {
    if amount == 0 {
      TrackedIsDescribed(base, p);
      return;
    }
    var next := Advance(p, Reward(address, amount));
    assert Tracks(Get(base, address), Get(p.diff, address), Get(p.state, address));
    RewardIsExactIff(Get(base, address), Get(p.diff, address), Get(p.state, address), amount);
    CommitGet(base, next.diff, address);
    forall a: Address | a != address
      ensures Tracks(Get(base, a), Get(next.diff, a), Get(next.state, a))
    {
      assert Tracks(Get(base, a), Get(p.diff, a), Get(p.state, a));
    }
    if StepIsExact(base, p, Reward(address, amount)) {
      TrackedIsDescribed(base, next);
    }
  }

  ghost predicate HonestRun(base: State, steps: seq<Step>) {
    if steps == [] then
      forall a: Address :: NonZero(Get(base, a))
    else
      var before := steps[..|steps| - 1];
      HonestRun(base, before) && HonestStep(After(base, before), steps[|steps| - 1])
  }

  /** Every step of the run is exact where it is taken. */
  predicate ExactRun(base: State, steps: seq<Step>) {
    steps == [] ||
    var before := steps[..|steps| - 1];
    ExactRun(base, before) && StepIsExact(base, After(base, before), steps[|steps| - 1])
  }

  /** The accumulated diff describes the state after every prefix of the run. */
  predicate DescribedThroughout(base: State, steps: seq<Step>) {
    Describes(base, After(base, steps)) && (steps == [] || DescribedThroughout(base, steps[..|steps| - 1]))
  }

  lemma StepIsExactIff(base: State, p: Progress, step: Step)
    requires TracksAll(base, p) && HonestStep(p, step)
    ensures Describes(base, Advance(p, step)) <==> StepIsExact(base, p, step)
    ensures StepIsExact(base, p, step) ==> TracksAll(base, Advance(p, step))
  {
    match step
    case Transaction(diff) => TransactionIsExactIff(base, p, diff);
    case Reward(a, amount) => RewardStepIsExactIff(base, p, a, amount);
  }

  /** Along every run of transactions and rewards, the accumulated diff describes
      the state at every point if and only if every step is exact. */
  lemma {:induction false} DiffDescribesEveryPrefixIff(base: State, steps: seq<Step>)
    requires HonestRun(base, steps)
    ensures DescribedThroughout(base, steps) <==> ExactRun(base, steps)
    ensures ExactRun(base, steps) ==> TracksAll(base, After(base, steps))
  {
    hide Describes, TracksAll, StepIsExact, HonestStep, Advance;
    if steps == [] {
      EmptyRunTracks(base);
    } else {
      var before, last := steps[..|steps| - 1], steps[|steps| - 1];
      DiffDescribesEveryPrefixIff(base, before);
      if ExactRun(base, before) {
        StepIsExactIff(base, After(base, before), last);
      }
    }
  }

  lemma EmptyRunTracks(base: State)
    requires forall a: Address :: NonZero(Get(base, a))
    ensures TracksAll(base, Progress(base, map[])) && Describes(base, Progress(base, map[]))
  {
    TrackedIsDescribed(base, Progress(base, map[]));
  }

  // ----- the final diff -----

  /** What a run has done to one account, as far as the final diff is concerned: the flags
      it has set, whether the account is alive, whether a reward was paid, and the slots
      mentioned before and since its storage last started afresh (if it did). */
  datatype History = History(
    mentioned: bool, touched: bool, created: bool, destroyed: bool, paid: bool, alive: bool, restarted: bool,
    before: map<nat, nat>, since: map<nat, nat>)

  function Recall(h: History, d: Change): History {
    if !d.touched then
      h.(mentioned := true, since := h.since + d.storage)
    else if Removes(d) then
      h.(mentioned := true, touched := true, created := h.created || d.created, destroyed := h.destroyed || d.destroyed,
         alive := false, restarted := true, before := h.before + h.since + d.storage, since := map[])
    else if d.created then
      h.(mentioned := true, touched := true, created := true, alive := true, restarted := true,
         before := h.before + h.since, since := d.storage)
    else
      h.(mentioned := true, touched := true, alive := true, since := h.since + d.storage)
  }

  /** A reward touches an account the diff does not mention yet, and no other. */
  function RecallReward(h: History): History {
    h.(mentioned := true, touched := h.touched || !h.mentioned, paid := true, alive := true)
  }

  function HistoryOf(base: State, steps: seq<Step>, a: Address): History {
    if steps == [] then
      History(false, false, false, false, false, a in base, false, map[], map[])
    else
      var earlier := HistoryOf(base, steps[..|steps| - 1], a);
      match steps[|steps| - 1]
      case Transaction(diff) => if a in diff then Recall(earlier, diff[a]) else earlier
      case Reward(address, amount) => if address == a && amount > 0 then RecallReward(earlier) else earlier
  }

  /** The storage the final diff starts the account from, with the slots mentioned before
      the last fresh start. */
  function Inherited(base: Option<Account>, h: History): Storage {
    SetSlots(if h.created then map[] else SlotsOf(base), h.before)
  }

  /** An account that no step touched was paid nothing; one that is alive was never
      destroyed in the block, and every slot it would inherit from before its last fresh
      start has been mentioned since; one that is dead was destroyed, or was not created in
      the block. */
  predicate Settled(base: Option<Account>, h: History) {
    if !h.touched then !h.paid
    else if h.alive then !h.destroyed && (h.restarted ==> forall k :: k in Inherited(base, h) ==> k in h.since)
    else h.destroyed || !h.created
  }

  /** The history accounts for the accumulated change and for the present account. */
  predicate Remembers(base: Option<Account>, h: History, acc: Option<Change>, now: Option<Account>) {
    && NonZero(base)
    && h.mentioned == acc.Some? && h.alive == now.Some?
    && (acc.Some? ==> RemembersChange(h, acc.value))
    && (h.created ==> h.restarted) && (h.created || h.destroyed ==> h.touched) && (h.touched || h.paid ==> h.mentioned)
    && (!h.restarted ==> h.before == map[]) && (!h.mentioned ==> h.before == h.since == map[])
    && SlotsOf(now) == SetSlots(if h.restarted then map[] else SlotsOf(base), h.since)
    && (!h.touched && !h.paid ==> now == base)
    && (!h.touched && h.paid ==> now.Some? && now.value.info.balance > InfoOf(base).balance)
    && (h.touched && h.alive ==> acc.value.info == now.value.info && (now.value.info != EMPTY || h.created))
    && (h.touched && !h.alive && !h.destroyed ==> acc.value.info == EMPTY)
  }

  predicate RemembersChange(h: History, acc: Change) {
    && acc.touched == h.touched && acc.created == h.created && acc.destroyed == h.destroyed
    && acc.storage == h.before + h.since
  }

  lemma LoadIsRemembered(base: Option<Account>, h: History, acc: Option<Change>, now: Option<Account>, d: Change)
    requires Remembers(base, h, acc, now) && LoadedOnly(d, now)
    ensures Remembers(base, Recall(h, d), Some(MergeAccount(acc, d)), now)
  {
    hide SetSlots;
    var start := if h.restarted then map[] else SlotsOf(base);
    SetSlotsTwice(start, h.since, d.storage);
    SetSlotsNonZero(start, h.since);
    SetSlotsOfNothing(SlotsOf(now), d.storage);
    MergedSlots(h, acc, d);
  }

  lemma MergedSlots(h: History, acc: Option<Change>, d: Change)
    requires h.mentioned == acc.Some? && (acc.Some? ==> RemembersChange(h, acc.value))
    requires !h.mentioned ==> h.before == h.since == map[]
    ensures MergeAccount(acc, d).storage == h.before + h.since + d.storage == h.before + (h.since + d.storage)
    ensures h.before + h.since + d.storage == h.before + h.since + d.storage + map[]
  {
  }

  lemma RemovalIsRemembered(base: Option<Account>, h: History, acc: Option<Change>, now: Option<Account>, d: Change)
    requires Remembers(base, h, acc, now) && d.touched && Removes(d)
    ensures Remembers(base, Recall(h, d), Some(MergeAccount(acc, d)), None)
  {
    hide SetSlots;
    MergedSlots(h, acc, d);
    SetSlotsOfNothing(map[], map[]);
  }

  lemma CreationIsRemembered(base: Option<Account>, h: History, acc: Option<Change>, now: Option<Account>, d: Change)
    requires Remembers(base, h, acc, now) && d.touched && !Removes(d) && d.created
    ensures Remembers(base, Recall(h, d), Some(MergeAccount(acc, d)), CommitAccount(now, d))
  {
    hide SetSlots;
    MergedSlots(h, acc, d);
  }

  lemma UpdateIsRemembered(base: Option<Account>, h: History, acc: Option<Change>, now: Option<Account>, d: Change)
    requires Remembers(base, h, acc, now) && d.touched && !Removes(d) && !d.created
    ensures Remembers(base, Recall(h, d), Some(MergeAccount(acc, d)), CommitAccount(now, d))
  {
    hide SetSlots;
    MergedSlots(h, acc, d);
    SetSlotsTwice(if h.restarted then map[] else SlotsOf(base), h.since, d.storage);
  }

  lemma TouchIsRemembered(base: Option<Account>, h: History, acc: Option<Change>, now: Option<Account>, d: Change)
    requires Remembers(base, h, acc, now) && d.touched
    ensures Remembers(base, Recall(h, d), Some(MergeAccount(acc, d)), CommitAccount(now, d))
  {
    hide Remembers, Recall, MergeAccount;
    if Removes(d) {
      RemovalIsRemembered(base, h, acc, now, d);
    } else if d.created {
      CreationIsRemembered(base, h, acc, now, d);
    } else {
      UpdateIsRemembered(base, h, acc, now, d);
    }
  }

  lemma RewardIsRemembered(base: Option<Account>, h: History, acc: Option<Change>, now: Option<Account>, amount: nat)
    requires Remembers(base, h, acc, now) && amount > 0
    ensures var next := Credit(now, amount);
            Remembers(base, RecallReward(h), Some(ChangeInfo(acc, next.info)), Some(next))
  {
    hide SetSlots;
  }

  lemma {:induction false} HistoryIsRemembered(base: State, steps: seq<Step>, a: Address)
    requires HonestRun(base, steps)
    ensures var p := After(base, steps);
            Remembers(Get(base, a), HistoryOf(base, steps, a), Get(p.diff, a), Get(p.state, a))
  {
    hide Remembers, Recall, RecallReward, Commit, ApplyDiff, Credit, ChangeInfo, CommitAccount, MergeAccount,
         LoadedOnly;
    if steps == [] {
      EmptyHistoryIsRemembered(Get(base, a));
    } else {
      var before, last := steps[..|steps| - 1], steps[|steps| - 1];
      HistoryIsRemembered(base, before, a);
      var p, h := After(base, before), HistoryOf(base, before, a);
      match last
      case Transaction(diff) =>
        TransactionGet(p, diff, a);
        if a in diff {
          if diff[a].touched {
            TouchIsRemembered(Get(base, a), h, Get(p.diff, a), Get(p.state, a), diff[a]);
          } else {
            LoadIsRemembered(Get(base, a), h, Get(p.diff, a), Get(p.state, a), diff[a]);
            UntouchedCommit(Get(p.state, a), diff[a]);
          }
        }
      case Reward(address, amount) =>
        if address == a && amount > 0 {
          RewardIsRemembered(Get(base, a), h, Get(p.diff, a), Get(p.state, a), amount);
        }
    }
  }

  lemma EmptyHistoryIsRemembered(base: Option<Account>)
    requires NonZero(base)
    ensures Remembers(base, History(false, false, false, false, false, base.Some?, false, map[], map[]), None, base)
  {
    SetSlotsOfNothing(SlotsOf(base), map[]);
  }

  lemma UntouchedCommit(now: Option<Account>, d: Change)
    requires !d.touched
    ensures CommitAccount(now, d) == now
  {
  }

  lemma TransactionGet(p: Progress, diff: Diff, a: Address)
    ensures var next := Advance(p, Transaction(diff));
            && Get(next.state, a) == CommitIfChanged(Get(p.state, a), Get(diff, a))
            && Get(next.diff, a) == if a in diff then Some(MergeAccount(Get(p.diff, a), diff[a])) else Get(p.diff, a)
  {
    hide MergeAccount, CommitAccount;
  }

  /** For one account: the accumulated change leads from the initial to the present account
      if and only if the history is settled. */
  lemma SettledIff(base: Option<Account>, h: History, acc: Option<Change>, now: Option<Account>)
    requires Remembers(base, h, acc, now)
    ensures CommitIfChanged(base, acc) == now <==> Settled(base, h)
  {
    hide SetSlots;
    if h.touched && h.alive && !h.destroyed {
      var start := if h.created then map[] else SlotsOf(base);
      if h.restarted {
        SetSlotsTwice(start, h.before, h.since);
        SetSlotsNonZero(start, h.before);
        SetSlotsFromNothingIff(Inherited(base, h), h.since);
      } else {
        assert h.before + h.since == h.since;
      }
    }
  }

  ghost predicate AllSettled(base: State, steps: seq<Step>) {
    forall a: Address :: Settled(Get(base, a), HistoryOf(base, steps, a))
  }

  /** For every run of transactions and rewards: the accumulated diff applied to the initial
      state gives the final state if and only if the history of every account is settled. */
  lemma DiffDescribesStateIff(base: State, steps: seq<Step>)
    requires HonestRun(base, steps)
    ensures Describes(base, After(base, steps)) <==> AllSettled(base, steps)
  {
    hide Remembers, Settled, HistoryOf, After, HonestRun, Commit;
    var p := After(base, steps);
    forall a: Address
      ensures Get(Commit(base, p.diff), a) == Get(p.state, a) <==> Settled(Get(base, a), HistoryOf(base, steps, a))
    {
      HistoryIsRemembered(base, steps, a);
      SettledIff(Get(base, a), HistoryOf(base, steps, a), Get(p.diff, a), Get(p.state, a));
      CommitGet(base, p.diff, a);
    }
    if AllSettled(base, steps) {
      EqualByGet(Commit(base, p.diff), p.state);
    }
  }

  /** The condition can fail: an account destroyed by one transaction and paid by
      the next is alive in the state and removed by the accumulated diff. */
  lemma RevivedAccountIsLost()
    ensures var a: Address := 7;
            var base: State := map[a := Account(Info(1, 1, 5), map[])];
            var destroy: Diff := map[a := Change(Info(0, 1, 5), true, false, true, map[])];
            var pay: Diff := map[a := Change(Info(9, 0, 0), true, false, false, map[])];
            var p := After(base, [Transaction(destroy), Transaction(pay)]);
            && a in p.state && p.state[a].info.balance == 9
            && a !in Commit(base, p.diff)
  {
    var a: Address := 7;
    var base: State := map[a := Account(Info(1, 1, 5), map[])];
    var destroy: Diff := map[a := Change(Info(0, 1, 5), true, false, true, map[])];
    var pay: Diff := map[a := Change(Info(9, 0, 0), true, false, false, map[])];
    var steps := [Transaction(destroy), Transaction(pay)];
    assert steps[..1] == [Transaction(destroy)] && steps[..1][..0] == [];
    assert After(base, []) == Progress(base, map[]);
    var p1 := After(base, [Transaction(destroy)]);
    assert p1 == Advance(Progress(base, map[]), Transaction(destroy));
    assert After(base, steps) == Advance(p1, Transaction(pay));
  }

  // ----- what an empty diff says -----

  /** The step leaves an entry in the diff. */
  predicate LeavesEntry(step: Step) {
    match step
    case Transaction(diff) => diff != map[]
    case Reward(_, amount) => amount > 0
  }

  /** The step touches an account. */
  predicate Touches(step: Step) {
    match step
    case Transaction(diff) => exists a :: a in diff && diff[a].touched
    case Reward(_, amount) => amount > 0
  }

  lemma UntouchedStateStays(s: State, diff: Diff)
    requires !Touches(Transaction(diff))
    ensures Commit(s, diff) == s
  {
    forall a: Address
      ensures Get(Commit(s, diff), a) == Get(s, a)
    {
      CommitGet(s, diff, a);
    }
    EqualByGet(Commit(s, diff), s);
  }

  /** The accumulated diff is empty exactly when no step left an entry, and then, as
      whenever no account was touched, the state is the initial one. */
  lemma {:induction false} EmptyDiffIff(base: State, steps: seq<Step>)
    ensures After(base, steps).diff == map[] <==> forall i :: 0 <= i < |steps| ==> !LeavesEntry(steps[i])
    ensures (forall i :: 0 <= i < |steps| ==> !Touches(steps[i])) ==> After(base, steps).state == base
    ensures After(base, steps).diff == map[] ==> After(base, steps).state == base
  {
    hide Commit, MergeAccount;
    if steps != [] {
      var before, last := steps[..|steps| - 1], steps[|steps| - 1];
      EmptyDiffIff(base, before);
      assert forall i :: 0 <= i < |before| ==> before[i] == steps[i];
      if last.Transaction? {
        var acc := After(base, before).diff;
        assert ApplyDiff(acc, last.diff).Keys == acc.Keys + last.diff.Keys;
        if !Touches(last) {
          UntouchedStateStays(After(base, before).state, last.diff);
        }
      }
    }
  }
}
