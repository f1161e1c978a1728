/** Saves of the administrator's configuration at the same time, statement by statement: the versions of a provider,
    which the database keeps apart by two unique indexes, and the routing rules, which it does not. */
module AdminRaces {
  import opened AdminConfig
  import opened KeyedTable
  import opened Outcomes

  // --------------------------------------------------------------------------------------------- versions

  /** A save that has read the greatest version of its provider. */
  datatype Saver = Saver(provider: Id, active: bool, config: string, next: int, archived: bool)

  datatype Versions = Versions(rows: seq<Version>, savers: map<nat, Saver>)

  datatype VersionAction =
    | ReadLatest(saver: nat, provider: Id, active: bool, config: string)
    | ArchiveOld(saver: nat, works: bool)
    | InsertNew(saver: nat, works: bool)
    | GiveUp(saver: nat)

  predicate CanStep(s: Versions, a: VersionAction) {
    match a
    case ReadLatest(k, _, _, _) => k !in s.savers
    case ArchiveOld(k, _) => k in s.savers && s.savers[k].active && !s.savers[k].archived
    case InsertNew(k, _) => k in s.savers && (s.savers[k].active ==> s.savers[k].archived)
    case GiveUp(k) => k in s.savers
  }

  /** The two unique indexes: of provider and version, and of the provider of an active row. */
  predicate Admits(rows: seq<Version>, r: Version) {
    forall i | 0 <= i < |rows| && rows[i].provider == r.provider ::
      rows[i].version != r.version && !(rows[i].status == Active && r.status == Active)
  }

  function NewVersion(n: Saver): Version { Version(n.provider, n.next, if n.active then Active else Draft, n.config) }

  function VersionStep(s: Versions, a: VersionAction): Versions
    requires CanStep(s, a)
  {
    match a
    case ReadLatest(k, provider, active, config) =>
      s.(savers := s.savers[k := Saver(provider, active, config, Latest(s.rows, provider) + 1, false)])
    case ArchiveOld(k, works) =>
      if works then Versions(Archive(s.rows, s.savers[k].provider), s.savers[k := s.savers[k].(archived := true)])
      else s.(savers := s.savers - {k})
    case InsertNew(k, works) =>
      var r := NewVersion(s.savers[k]);
      Versions(if works && Admits(s.rows, r) then s.rows + [r] else s.rows, s.savers - {k})
    case GiveUp(k) => s.(savers := s.savers - {k})
  }

  predicate VersionsLegal(s: Versions, actions: seq<VersionAction>)
    decreases |actions|
  {
    actions != [] ==> CanStep(s, actions[0]) && VersionsLegal(VersionStep(s, actions[0]), actions[1..])
  }

  function VersionsRun(s: Versions, actions: seq<VersionAction>): Versions
    requires VersionsLegal(s, actions)
    decreases |actions|
  {
    if actions == [] then s else VersionsRun(VersionStep(s, actions[0]), actions[1..])
  }

  /** A provider's versions are 1 to n in the order they were inserted. */
  ghost predicate InOrder(rows: seq<Version>, provider: Id) {
    var own := OfProvider(rows, provider);
    forall i | 0 <= i < |own| :: own[i].version == i + 1
  }

  ghost predicate OneActive(rows: seq<Version>) {
    forall i, j | 0 <= i < j < |rows| && rows[i].provider == rows[j].provider :: rows[i].status != Active || rows[j].status != Active
  }

  ghost predicate VersionsInv(s: Versions) {
    && OneActive(s.rows) && (forall provider :: InOrder(s.rows, provider))
    && (forall k | k in s.savers :: 1 <= s.savers[k].next <= |OfProvider(s.rows, s.savers[k].provider)| + 1)
  }

  lemma LatestCounts(rows: seq<Version>, provider: Id)
    requires InOrder(rows, provider)
    ensures Latest(rows, provider) == |OfProvider(rows, provider)|
  {
    LatestIsMax(rows, provider);
    var own := OfProvider(rows, provider);
    if own != [] { assert own[|own| - 1].version == |own|; }
  }

  lemma {:induction false} OwnIsRow(rows: seq<Version>, provider: Id, i: nat) returns (j: nat)
    requires i < |OfProvider(rows, provider)|
    ensures j < |rows| && rows[j] == OfProvider(rows, provider)[i] && rows[j].provider == provider
  {
    var n := |rows| - 1;
    if i < |OfProvider(rows[..n], provider)| { j := OwnIsRow(rows[..n], provider, i); } else { j := n; }
  }

  lemma ArchiveKeepsOrder(rows: seq<Version>, archived: Id, provider: Id)
    requires InOrder(rows, provider)
    ensures InOrder(Archive(rows, archived), provider)
    ensures |OfProvider(Archive(rows, archived), provider)| == |OfProvider(rows, provider)|
  {
    ArchivedRows(rows, archived, provider);
  }

  /** What the indexes admit is the next version. */
  lemma AdmittedIsNext(rows: seq<Version>, r: Version, provider: Id)
    requires InOrder(rows, provider) && InOrder(rows, r.provider)
    requires Admits(rows, r) && 1 <= r.version <= |OfProvider(rows, r.provider)| + 1
    ensures InOrder(rows + [r], provider)
    ensures OfProvider(rows + [r], provider) == OfProvider(rows, provider) + if r.provider == provider then [r] else []
  {
    OfProviderOne(rows, r, provider);
    if r.version <= |OfProvider(rows, r.provider)| {
      var j := OwnIsRow(rows, r.provider, r.version - 1);
      assert false;
    }
  }

  lemma ArchiveOldKeepsInv(s: Versions, k: nat)
    requires VersionsInv(s) && CanStep(s, ArchiveOld(k, true))
    ensures VersionsInv(VersionStep(s, ArchiveOld(k, true)))
  {
    var t := VersionStep(s, ArchiveOld(k, true));
    forall provider ensures InOrder(t.rows, provider) && |OfProvider(t.rows, provider)| == |OfProvider(s.rows, provider)| {
      ArchiveKeepsOrder(s.rows, s.savers[k].provider, provider);
    }
    hide InOrder, OfProvider;
  }

  lemma InsertNewKeepsInv(s: Versions, k: nat)
    requires VersionsInv(s) && CanStep(s, InsertNew(k, true))
    ensures VersionsInv(VersionStep(s, InsertNew(k, true)))
  {
    var t, r := VersionStep(s, InsertNew(k, true)), NewVersion(s.savers[k]);
    if Admits(s.rows, r) {
      forall provider ensures InOrder(t.rows, provider) && |OfProvider(t.rows, provider)| >= |OfProvider(s.rows, provider)| {
        AdmittedIsNext(s.rows, r, provider);
      }
      assert OneActive(t.rows);
    }
    hide InOrder, OfProvider, OneActive, Admits;
  }

  lemma VersionStepKeepsInv(s: Versions, a: VersionAction)
    requires VersionsInv(s) && CanStep(s, a)
    ensures VersionsInv(VersionStep(s, a))
  {
    match a
    case ArchiveOld(k, works) => if works { ArchiveOldKeepsInv(s, k); }
    case InsertNew(k, works) => if works { InsertNewKeepsInv(s, k); }
    case ReadLatest(_, provider, _, _) => LatestCounts(s.rows, provider);
    case GiveUp(_) =>
  }

  lemma {:induction false} VersionsKeepInv(s: Versions, actions: seq<VersionAction>)
    requires VersionsInv(s) && VersionsLegal(s, actions)
    ensures VersionsInv(VersionsRun(s, actions))
    decreases |actions|
  {
    hide VersionsInv, VersionStep, CanStep;
    if actions != [] {
      VersionStepKeepsInv(s, actions[0]);
      VersionsKeepInv(VersionStep(s, actions[0]), actions[1..]);
    }
  }

  /** In every interleaving of any number of saves, with any failures, a provider's versions are exactly 1 to n in the
      order they were inserted, and at most one of them is active. */
  lemma VersionsStayInOrder(actions: seq<VersionAction>, provider: Id, i: nat, j: nat)
    requires VersionsLegal(Versions([], map[]), actions)
    ensures var own := OfProvider(VersionsRun(Versions([], map[]), actions).rows, provider);
            i < |own| ==> own[i].version == i + 1
    ensures var rows := VersionsRun(Versions([], map[]), actions).rows;
            i < j < |rows| && rows[i].provider == rows[j].provider ==> rows[i].status != Active || rows[j].status != Active
  {
    hide VersionsRun, VersionsLegal;
    VersionsKeepInv(Versions([], map[]), actions);
    assert InOrder(VersionsRun(Versions([], map[]), actions).rows, provider);
  }

  /** The statements of one save, in order, as far as they get. */
  function SaveSteps(k: nat, save: Save): seq<VersionAction> {
    [ReadLatest(k, save.provider, save.active, save.config)]
    + (if save.active then [ArchiveOld(k, save.archives)] else [])
    + (if save.active && !save.archives then [] else [InsertNew(k, save.inserts)])
  }

  lemma {:induction false} LatestBounds(rows: seq<Version>, provider: Id)
    ensures forall i | 0 <= i < |rows| && rows[i].provider == provider :: rows[i].version <= Latest(rows, provider)
  {
    if rows != [] {
      var n := |rows| - 1;
      LatestBounds(rows[..n], provider);
      assert forall i | 0 <= i < n :: rows[..n][i] == rows[i];
    }
  }

  lemma SaveIsAdmitted(rows: seq<Version>, save: Save)
    ensures Admits(if save.active then Archive(rows, save.provider) else rows,
                   Version(save.provider, Latest(rows, save.provider) + 1, if save.active then Active else Draft, save.config))
  {
    hide Latest;
    LatestBounds(rows, save.provider);
  }

  /** A save by itself is the run of its statements, each of which comes only after the one before it; and one that
      gives up leaves everything as it was. */
  lemma SaveIsSteps(s: Versions, k: nat, save: Save)
    requires k !in s.savers
    ensures var read := ReadLatest(k, save.provider, save.active, save.config);
            && VersionsLegal(s, SaveSteps(k, save))
            && VersionsRun(s, SaveSteps(k, save)) == Versions(SaveVersion(s.rows, save), s.savers)
            && (CanStep(VersionStep(s, read), InsertNew(k, save.inserts)) <==> !save.active)
            && (CanStep(VersionStep(s, read), ArchiveOld(k, save.archives)) <==> save.active)
            && VersionStep(VersionStep(s, read), GiveUp(k)) == s
  {
    hide Latest, Archive, Admits;
    var steps := SaveSteps(k, save);
    var read := VersionStep(s, steps[0]);
    SaveIsAdmitted(s.rows, save);
    assert read.savers - {k} == s.savers;
    if save.active {
      var archived := VersionStep(read, steps[1]);
      assert archived.savers - {k} == s.savers;
      if save.archives {
        assert steps[1..] == [steps[1], steps[2]] && steps[1..][1..] == [steps[2]] && [steps[2]][1..] == [];
        OneVersionStep(archived, steps[2]);
      } else {
        assert steps[1..] == [steps[1]];
        OneVersionStep(read, steps[1]);
      }
    } else {
      assert steps[1..] == [steps[1]];
      OneVersionStep(read, steps[1]);
    }
  }

  lemma OneVersionStep(s: Versions, a: VersionAction)
    requires CanStep(s, a)
    ensures VersionsLegal(s, [a]) && VersionsRun(s, [a]) == VersionStep(s, a)
  {
    hide CanStep, VersionStep;
    assert [a][1..] == [];
  }

  // ----------------------------------------------------------------------------------------- routing rules

  /** A save that has looked for its rule's row: it will update that row, or insert one. */
  datatype Finder = Finder(row: RuleRow, found: Option<nat>)

  datatype Rules = Rules(rows: seq<RuleRow>, finders: map<nat, Finder>)

  datatype RuleAction = Look(finder: nat, row: RuleRow) | Store(finder: nat, works: bool) | Leave(finder: nat)

  predicate Doubled(rows: seq<RuleRow>, key: RuleKey) { exists i, j :: 0 <= i < j < |rows| && rows[i].key == key == rows[j].key }

  predicate CanAct(s: Rules, a: RuleAction) {
    match a
    case Look(k, _) => k !in s.finders
    case Store(k, _) => k in s.finders
    case Leave(k) => k in s.finders
  }

  /** Looking fails where two rows have the key. */
  function RuleStep(s: Rules, a: RuleAction): Rules
    requires CanAct(s, a)
  {
    match a
    case Look(k, r) =>
      if Doubled(s.rows, r.key) then s
      else
        var i := Find(s.rows, r.key);
        s.(finders := s.finders[k := Finder(r, if i < |s.rows| then Some(i) else None)])
    case Store(k, works) =>
      var n := s.finders[k];
      Rules(if !works then s.rows
            else if n.found.Some? && n.found.value < |s.rows| then s.rows[n.found.value := n.row] else s.rows + [n.row],
            s.finders - {k})
    case Leave(k) => s.(finders := s.finders - {k})
  }

  predicate RulesLegal(s: Rules, actions: seq<RuleAction>)
    decreases |actions|
  {
    actions != [] ==> CanAct(s, actions[0]) && RulesLegal(RuleStep(s, actions[0]), actions[1..])
  }

  function RulesRun(s: Rules, actions: seq<RuleAction>): Rules
    requires RulesLegal(s, actions)
    decreases |actions|
  {
    if actions == [] then s else RulesRun(RuleStep(s, actions[0]), actions[1..])
  }

  /** Two saves both find no row for one key. */
  predicate LooksBeside(s: Rules, a: RuleAction) {
    && a.Look? && Find(s.rows, a.row.key) == |s.rows|
    && exists k | k in s.finders :: s.finders[k].found.None? && s.finders[k].row.key == a.row.key
  }

  predicate NoneBeside(s: Rules, actions: seq<RuleAction>)
    requires RulesLegal(s, actions)
    decreases |actions|
  {
    actions != [] ==> !LooksBeside(s, actions[0]) && NoneBeside(RuleStep(s, actions[0]), actions[1..])
  }

  /** What a save found is the row of its key. */
  ghost predicate FoundRows(s: Rules) {
    forall k | k in s.finders && s.finders[k].found.Some? ::
      s.finders[k].found.value < |s.rows| && s.rows[s.finders[k].found.value].key == s.finders[k].row.key
  }

  /** Keys are unique, and a save that found no row has its key to itself. */
  ghost predicate RulesInv(s: Rules) {
    && KeysUnique(s.rows) && FoundRows(s)
    && (forall k | k in s.finders && s.finders[k].found.None? :: forall i | 0 <= i < |s.rows| :: s.rows[i].key != s.finders[k].row.key)
    && (forall k, l | k in s.finders && l in s.finders && s.finders[k].found.None? && s.finders[l].found.None?
                      && s.finders[k].row.key == s.finders[l].row.key :: k == l)
  }

  lemma StepKeepsFound(s: Rules, a: RuleAction)
    requires FoundRows(s) && CanAct(s, a)
    ensures FoundRows(RuleStep(s, a))
  {
  }

  lemma RuleStepKeepsInv(s: Rules, a: RuleAction)
    requires RulesInv(s) && CanAct(s, a) && !LooksBeside(s, a)
    ensures RulesInv(RuleStep(s, a))
  {
    StepKeepsFound(s, a);
    hide FoundRows;
    if a.Store? { StoreKeepsInv(s, a.finder, a.works); }
  }

  lemma StoreKeepsInv(s: Rules, k: nat, works: bool)
    requires RulesInv(s) && CanAct(s, Store(k, works))
    ensures RulesInv(RuleStep(s, Store(k, works)))
  {
    StepKeepsFound(s, Store(k, works));
    var t := RuleStep(s, Store(k, works));
    assert forall i | 0 <= i < |s.rows| :: i < |t.rows| && t.rows[i].key == s.rows[i].key;
  }

  lemma {:induction false} RulesKeepInv(s: Rules, actions: seq<RuleAction>)
    requires RulesInv(s) && RulesLegal(s, actions) && NoneBeside(s, actions)
    ensures RulesInv(RulesRun(s, actions))
    decreases |actions|
  {
    hide RulesInv, RuleStep, CanAct, LooksBeside;
    if actions != [] {
      RuleStepKeepsInv(s, actions[0]);
      RulesKeepInv(RuleStep(s, actions[0]), actions[1..]);
    }
  }

  lemma StepKeepsKeys(s: Rules, a: RuleAction)
    requires FoundRows(s) && CanAct(s, a)
    ensures |s.rows| <= |RuleStep(s, a).rows| && forall i | 0 <= i < |s.rows| :: RuleStep(s, a).rows[i].key == s.rows[i].key
  {
  }

  lemma {:induction false} DoubledStays(s: Rules, actions: seq<RuleAction>, key: RuleKey)
    requires FoundRows(s) && RulesLegal(s, actions) && Doubled(s.rows, key)
    ensures Doubled(RulesRun(s, actions).rows, key)
    decreases |actions|
  {
    hide FoundRows, RuleStep, CanAct;
    if actions != [] {
      StepKeepsFound(s, actions[0]);
      StepKeepsKeys(s, actions[0]);
      var i, j :| 0 <= i < j < |s.rows| && s.rows[i].key == key == s.rows[j].key;
      var t := RuleStep(s, actions[0]);
      assert t.rows[i].key == key && t.rows[j].key == key;
      DoubledStays(t, actions[1..], key);
    }
  }

  /** A key with two rows is never saved again: whatever follows, looking for it fails. */
  lemma DoubledIsNeverSaved(s: Rules, actions: seq<RuleAction>, k: nat, r: RuleRow)
    requires FoundRows(s) && RulesLegal(s, actions) && Doubled(s.rows, r.key) && CanAct(RulesRun(s, actions), Look(k, r))
    ensures RuleStep(RulesRun(s, actions), Look(k, r)) == RulesRun(s, actions)
  {
    hide FoundRows;
    DoubledStays(s, actions, r.key);
  }

  /** Two saves that both look before either stores leave two rows with one key. */
  function LookLookStore(r: RuleRow): seq<RuleAction> { [Look(0, r), Look(1, r), Store(0, true), Store(1, true)] }

  lemma TwoSavesDouble(r: RuleRow)
    ensures RulesLegal(Rules([], map[]), LookLookStore(r)) && Doubled(RulesRun(Rules([], map[]), LookLookStore(r)).rows, r.key)
  {
    var s, actions := Rules([], map[]), LookLookStore(r);
    var t1 := RuleStep(s, actions[0]);
    var t2 := RuleStep(t1, actions[1]);
    var t3 := RuleStep(t2, actions[2]);
    var t4 := RuleStep(t3, actions[3]);
    assert t4.rows[0].key == r.key == t4.rows[1].key;
    assert actions[1..][1..][1..][1..] == [] && actions[1..][1..][1..] == [actions[3]] && actions[1..][1..] == [actions[2], actions[3]];
    assert actions[1..] == [actions[1], actions[2], actions[3]];
    hide RuleStep, CanAct, Doubled;
    assert RulesLegal(t3, [actions[3]]) && RulesRun(t3, [actions[3]]) == t4;
    assert RulesLegal(t2, [actions[2], actions[3]]) && RulesRun(t2, [actions[2], actions[3]]) == t4;
    assert RulesLegal(t1, actions[1..]) && RulesRun(t1, actions[1..]) == t4;
  }

  /** A save of one rule by itself is the run of its look and its store; one that fails or leaves changes no row. */
  lemma RuleSaveIsSteps(s: Rules, k: nat, r: RuleRow, works: bool)
    requires KeysUnique(s.rows) && k !in s.finders
    ensures RulesLegal(s, [Look(k, r), Store(k, works)]) && RulesLegal(s, [Look(k, r), Leave(k)])
    ensures RulesRun(s, [Look(k, r), Store(k, works)]) == Rules(if works then Put(s.rows, r) else s.rows, s.finders)
    ensures RulesRun(s, [Look(k, r), Leave(k)]) == s
  {
    var looked := RuleStep(s, Look(k, r));
    assert !Doubled(s.rows, r.key) && looked.finders - {k} == s.finders;
    OneRuleStep(looked, Store(k, works));
    OneRuleStep(looked, Leave(k));
    assert [Look(k, r), Store(k, works)][1..] == [Store(k, works)] && [Look(k, r), Leave(k)][1..] == [Leave(k)];
  }

  lemma OneRuleStep(s: Rules, a: RuleAction)
    requires CanAct(s, a)
    ensures RulesLegal(s, [a]) && RulesRun(s, [a]) == RuleStep(s, a)
  {
    hide CanAct, RuleStep;
    assert [a][1..] == [];
  }

  /** In every run of saves, and of saves two of which may both find no row for a key only if `beside`, every routing
      key has one row. */
  ghost predicate KeepsKeys(beside: bool) {
    forall s: Rules, actions | s.finders == map[] && KeysUnique(s.rows) && RulesLegal(s, actions) && (beside || NoneBeside(s, actions)) ::
      KeysUnique(RulesRun(s, actions).rows)
  }

  /** Routing keys stay unique in every interleaving exactly when no save finds no row for a key while another has
      found none and has yet to insert it. */
  lemma KeysStayUniqueExactly(beside: bool)
    ensures KeepsKeys(beside) <==> !beside
  {
    hide RulesLegal, RulesRun, NoneBeside, LookLookStore;
    if beside {
      var r := Row(RuleKey("provider", "rail", "operation", None, None), RuleValue(0, true, ""));
      TwoSavesDouble(r);
      assert KeysUnique<RuleKey, RuleValue>([]);
      assert !KeysUnique(RulesRun(Rules([], map[]), LookLookStore(r)).rows);
    } else {
      forall s: Rules, actions | s.finders == map[] && KeysUnique(s.rows) && RulesLegal(s, actions) && NoneBeside(s, actions)
        ensures KeysUnique(RulesRun(s, actions).rows)
      {
        RulesKeepInv(s, actions);
      }
    }
  }
}
