/** The administrator's desired-state synchroniser: configuration versions, routing rules and rail
    capabilities of the providers, each in its own table. */
module AdminConfig {
  import opened KeyedTable
  import opened Outcomes
  import opened Words

  type Id = string

  function UpperCode(s: string): string { Upper(Trim(s)) }

  // ----------------------------------------------------------------------------------------------- versions

  datatype VersionStatus = Active | Draft | Archived

  datatype Version = Version(provider: Id, version: int, status: VersionStatus, config: string)

  /** The greatest version number of a provider, zero without any. */
  function Latest(rows: seq<Version>, provider: Id): int {
    if rows == [] then 0
    else
      var rest := Latest(rows[..|rows| - 1], provider);
      if rows[|rows| - 1].provider == provider && rows[|rows| - 1].version > rest then rows[|rows| - 1].version else rest
  }

  function Archive(rows: seq<Version>, provider: Id): seq<Version> {
    seq(|rows|, i requires 0 <= i < |rows| =>
      if rows[i].provider == provider && rows[i].status == Active then rows[i].(status := Archived) else rows[i])
  }

  /** One save; either database write may fail, and an error in the first one ends the save. */
  datatype Save = Save(provider: Id, active: bool, config: string, archives: bool, inserts: bool)

  function SaveVersion(rows: seq<Version>, s: Save): seq<Version> {
    if s.active && !s.archives then rows
    else
      var kept := if s.active then Archive(rows, s.provider) else rows;
      if s.inserts
      then kept + [Version(s.provider, Latest(rows, s.provider) + 1, if s.active then Active else Draft, s.config)]
      else kept
  }

  predicate Inserts(s: Save) { s.inserts && (s.active ==> s.archives) }

  function SaveVersions(rows: seq<Version>, saves: seq<Save>): seq<Version> {
    if saves == [] then rows else SaveVersion(SaveVersions(rows, saves[..|saves| - 1]), saves[|saves| - 1])
  }

  /** How many saves of a provider went through. */
  function Saved(saves: seq<Save>, provider: Id): nat {
    if saves == [] then 0
    else
      var s := saves[|saves| - 1];
      Saved(saves[..|saves| - 1], provider) + if s.provider == provider && Inserts(s) then 1 else 0
  }

  /** The number of the version that should be active: the last one saved as active, unless a later save
      as active archived it and then failed. */
  function ActiveNumber(saves: seq<Save>, provider: Id): Option<int> {
    if saves == [] then None
    else
      var s, before := saves[|saves| - 1], saves[..|saves| - 1];
      if s.provider != provider || !s.active || !s.archives then ActiveNumber(before, provider)
      else if s.inserts then Some(Saved(before, provider) + 1)
      else None
  }

  /** The rows of a provider, in the order they were inserted. */
  function OfProvider(rows: seq<Version>, provider: Id): seq<Version> {
    if rows == [] then []
    else OfProvider(rows[..|rows| - 1], provider) + if rows[|rows| - 1].provider == provider then [rows[|rows| - 1]] else []
  }

  lemma {:induction false} LatestIsMax(rows: seq<Version>, provider: Id)
    ensures forall r | r in OfProvider(rows, provider) :: r.version <= Latest(rows, provider)
    ensures Latest(rows, provider) == 0 || exists r :: r in OfProvider(rows, provider) && r.version == Latest(rows, provider)
  {
    if rows != [] {
      var n := |rows| - 1;
      LatestIsMax(rows[..n], provider);
      if rows[n].provider == provider {
        assert OfProvider(rows, provider)[|OfProvider(rows[..n], provider)|] == rows[n];
      }
      assert forall r | r in OfProvider(rows[..n], provider) :: r in OfProvider(rows, provider);
    }
  }

  lemma {:induction false} ArchivedRows(rows: seq<Version>, archived: Id, provider: Id)
    ensures OfProvider(Archive(rows, archived), provider)
         == if archived == provider then Archive(OfProvider(rows, provider), provider) else OfProvider(rows, provider)
  {
    if rows != [] {
      var n := |rows| - 1;
      assert Archive(rows, archived)[..n] == Archive(rows[..n], archived);
      ArchivedRows(rows[..n], archived, provider);
    }
  }

  lemma OfProviderOne(rows: seq<Version>, r: Version, provider: Id)
    ensures OfProvider(rows + [r], provider) == OfProvider(rows, provider) + if r.provider == provider then [r] else []
  {
    assert (rows + [r])[..|rows|] == rows;
  }

  lemma CountOne(saves: seq<Save>, s: Save, provider: Id)
    ensures Saved(saves + [s], provider) == Saved(saves, provider) + if s.provider == provider && Inserts(s) then 1 else 0
    ensures ActiveNumber(saves + [s], provider)
         == if s.provider != provider || !s.active || !s.archives then ActiveNumber(saves, provider)
            else if s.inserts then Some(Saved(saves, provider) + 1)
            else None
  {
    assert (saves + [s])[..|saves|] == saves;
  }

  /** The saves of a provider that went through, in order. */
  function Successful(saves: seq<Save>, provider: Id): (r: seq<Save>)
    ensures |r| == Saved(saves, provider)
  {
    if saves == [] then []
    else
      var s := saves[|saves| - 1];
      Successful(saves[..|saves| - 1], provider)
      + if s.provider == provider && s.inserts && (s.active ==> s.archives) then [s] else []
  }

  function VersionsFor(provider: Id, saves: seq<Save>, active: Option<int>): seq<Version> {
    seq(|saves|, i requires 0 <= i < |saves| =>
      Version(provider, i + 1,
              if !saves[i].active then Draft else if active == Some(i + 1) then Active else Archived, saves[i].config))
  }

  lemma LatestIsLast(rows: seq<Version>, provider: Id, saves: seq<Save>, active: Option<int>)
    requires OfProvider(rows, provider) == VersionsFor(provider, saves, active)
    ensures Latest(rows, provider) == |saves|
  {
    LatestIsMax(rows, provider);
    var own := OfProvider(rows, provider);
    if saves != [] { assert own[|saves| - 1].version == |saves|; }
  }

  lemma ArchivedVersions(provider: Id, saves: seq<Save>, active: Option<int>)
    ensures Archive(VersionsFor(provider, saves, active), provider) == VersionsFor(provider, saves, None)
  {
  }

  lemma InsertedVersion(provider: Id, saves: seq<Save>, s: Save, active: Option<int>)
    requires active.Some? ==> active.value <= |saves| && !s.active
    ensures VersionsFor(provider, saves, active)
            + [Version(provider, |saves| + 1, if s.active then Active else Draft, s.config)]
         == VersionsFor(provider, saves + [s], if s.active then Some(|saves| + 1) else active)
  {
  }

  lemma {:induction false} VersionsAre(saves: seq<Save>, provider: Id)
    ensures OfProvider(SaveVersions([], saves), provider)
         == VersionsFor(provider, Successful(saves, provider), ActiveNumber(saves, provider))
    ensures ActiveNumber(saves, provider).Some? ==> ActiveNumber(saves, provider).value <= |Successful(saves, provider)|
  {
    hide Latest, Archive, VersionsFor, OfProvider, Saved;
    if saves == [] {
      NoVersions(provider);
    } else {
      var n := |saves| - 1;
      var s, before := saves[n], saves[..n];
      VersionsAre(before, provider);
      var rows := SaveVersions([], before);
      var done, active := Successful(before, provider), ActiveNumber(before, provider);
      LatestIsLast(rows, provider, done, active);
      ArchivedRows(rows, s.provider, provider);
      ArchivedVersions(provider, done, active);
      var row := Version(s.provider, Latest(rows, s.provider) + 1, if s.active then Active else Draft, s.config);
      var kept, still := if s.active then Archive(rows, s.provider) else rows, if s.active && s.provider == provider then None else active;
      OfProviderOne(kept, row, provider);
      assert saves == before + [s] && done + [] == done;
      CountOne(before, s, provider);
      assert OfProvider(kept, provider) == VersionsFor(provider, done, still);
      if s.active && !s.archives {
        assert SaveVersions([], saves) == rows;
      } else if !s.inserts {
        assert SaveVersions([], saves) == kept;
        assert ActiveNumber(saves, provider) == still;
      } else {
        assert SaveVersions([], saves) == kept + [row];
        if s.provider == provider { InsertedVersion(provider, done, s, still); }
      }
    }
  }

  lemma NoVersions(provider: Id)
    ensures OfProvider([], provider) == VersionsFor(provider, [], None)
  {
  }

  /** From an empty table, after any saves by any providers, with any failing writes: the versions of a provider are
      those of the saves that went through, numbered 1 to n in order. One saved as a draft stays a draft; one saved as
      active is archived unless it is the last one saved as active and no later attempt archived it and then failed. */
  lemma VersionsAreNumbered(saves: seq<Save>, provider: Id, i: nat)
    ensures |OfProvider(SaveVersions([], saves), provider)| == |Successful(saves, provider)|
    ensures var own, done := OfProvider(SaveVersions([], saves), provider), Successful(saves, provider);
            i < |own| ==>
              own[i] == Version(provider, i + 1,
                                if !done[i].active then Draft
                                else if ActiveNumber(saves, provider) == Some(i + 1) then Active else Archived,
                                done[i].config)
  {
    VersionsAre(saves, provider);
  }

  // ------------------------------------------------------------------------------------------- capabilities

  /** An absent status is the empty string; `details` stands for the columns that are copied from the
      submission. */
  datatype Capability = Capability(code: string, status: string, details: string)

  datatype CapabilityKey = CapabilityKey(provider: Id, code: string)

  datatype CapabilityValue = CapabilityValue(status: string, details: string, retired: bool)

  type CapabilityRow = Row<CapabilityKey, CapabilityValue>

  function Codes(capabilities: seq<Capability>): set<string> {
    set c | c in capabilities && UpperCode(c.code) != "" :: UpperCode(c.code)
  }

  function Retired(r: CapabilityRow, provider: Id, codes: set<string>): CapabilityRow {
    if r.key.provider == provider && UpperCode(r.key.code) !in codes
    then r.(value := r.value.(status := "INACTIVE", retired := true)) else r
  }

  function Retire(rows: seq<CapabilityRow>, provider: Id, codes: set<string>): seq<CapabilityRow> {
    seq(|rows|, i requires 0 <= i < |rows| => Retired(rows[i], provider, codes))
  }

  function EntryFor(provider: Id, c: Capability, active: bool): CapabilityRow {
    var status := if c.status != "" then c.status else if active then "ACTIVE" else "INACTIVE";
    Row(CapabilityKey(provider, UpperCode(c.code)), CapabilityValue(UpperCode(status), c.details, false))
  }

  /** The submitted capabilities that have a code. */
  function Entries(provider: Id, capabilities: seq<Capability>, active: bool): seq<CapabilityRow> {
    if capabilities == [] then []
    else
      var before, c := Entries(provider, capabilities[..|capabilities| - 1], active), capabilities[|capabilities| - 1];
      if UpperCode(c.code) == "" then before else before + [EntryFor(provider, c, active)]
  }

  function SaveCapabilities(
    rows: seq<CapabilityRow>, provider: Id, capabilities: seq<Capability>, active: bool): seq<CapabilityRow>
  {
    PutEach(Retire(rows, provider, Codes(capabilities)), Entries(provider, capabilities, active))
  }

  /** The last submitted entry with a code. */
  function LastWith(capabilities: seq<Capability>, code: string): Option<Capability> {
    if capabilities == [] then None
    else if UpperCode(capabilities[|capabilities| - 1].code) == code then Some(capabilities[|capabilities| - 1])
    else LastWith(capabilities[..|capabilities| - 1], code)
  }

  // ------------------------------------------------------------------------------------------ routing rules

  /** An absent or empty country or currency is stored as null. */
  datatype RoutingRule = RoutingRule(rail: string, operation: string, country: string, currency: string, value: RuleValue)

  datatype RuleValue = RuleValue(priority: int, active: bool, conditions: string)

  datatype RuleKey = RuleKey(provider: Id, rail: string, operation: string, country: Option<string>, currency: Option<string>)

  type RuleRow = Row<RuleKey, RuleValue>

  function OrNull(s: string): Option<string> { if s == "" then None else Some(s) }

  function RuleEntry(provider: Id, r: RoutingRule): RuleRow {
    Row(RuleKey(provider, r.rail, r.operation, OrNull(r.country), OrNull(r.currency)), r.value)
  }

  function RuleEntries(provider: Id, rules: seq<RoutingRule>): seq<RuleRow> {
    seq(|rules|, i requires 0 <= i < |rules| => RuleEntry(provider, rules[i]))
  }

  function SaveRules(rows: seq<RuleRow>, provider: Id, rules: seq<RoutingRule>): seq<RuleRow> {
    PutEach(rows, RuleEntries(provider, rules))
  }

  // ---------------------------------------------------------------------------------------- interrupted saves

  function Upto<T>(s: seq<T>, n: nat): seq<T> { if n <= |s| then s[..n] else s }

  /** A save of rules that an error ends after some writes were made, answered or not; None when no error
      occurs. */
  function SaveRulesUntil(rows: seq<RuleRow>, provider: Id, rules: seq<RoutingRule>, stop: Option<nat>): seq<RuleRow> {
    match stop
    case None => SaveRules(rows, provider, rules)
    case Some(n) => PutEach(rows, Upto(RuleEntries(provider, rules), n))
  }

  /** Where an error ends a save of capabilities: after going through some rows to retire, or after some
      writes. */
  datatype Stop = Never | Retiring(rows: nat) | Writing(entries: nat)

  function RetireUpto(rows: seq<CapabilityRow>, provider: Id, codes: set<string>, n: nat): seq<CapabilityRow> {
    seq(|rows|, i requires 0 <= i < |rows| => if i < n then Retired(rows[i], provider, codes) else rows[i])
  }

  function SaveCapabilitiesUntil(
    rows: seq<CapabilityRow>, provider: Id, capabilities: seq<Capability>, active: bool, stop: Stop): seq<CapabilityRow>
  {
    match stop
    case Never => SaveCapabilities(rows, provider, capabilities, active)
    case Retiring(n) => RetireUpto(rows, provider, Codes(capabilities), n)
    case Writing(n) => PutEach(Retire(rows, provider, Codes(capabilities)), Upto(Entries(provider, capabilities, active), n))
  }

  // --------------------------------------------------------------------------------------------- the service

  class Bootstrap {
    var versions: seq<Version>
    var capabilities: seq<CapabilityRow>
    var rules: seq<RuleRow>

    method SaveProviderConfigVersion(s: Save)
      modifies `versions
      ensures versions == SaveVersion(old(versions), s)
    {
      var latest := Latest(versions, s.provider);
      if s.active {
        if !s.archives { return; }
        var i := 0;
        ghost var before := versions;
        while i < |versions|
          invariant i <= |versions| == |before|
          invariant forall j | 0 <= j < i :: versions[j] == Archive(before, s.provider)[j]
          invariant forall j | i <= j < |versions| :: versions[j] == before[j]
        {
          if versions[i].provider == s.provider && versions[i].status == Active {
            versions := versions[i := versions[i].(status := Archived)];
          }
          i := i + 1;
        }
        assert versions == Archive(before, s.provider);
      }
      if s.inserts {
        versions := versions + [Version(s.provider, latest + 1, if s.active then Active else Draft, s.config)];
      }
    }

    method SaveRoutingRules(provider: Id, submitted: seq<RoutingRule>, stop: Option<nat>) returns (ok: bool)
      modifies `rules
      ensures ok == stop.None? && rules == SaveRulesUntil(old(rules), provider, submitted, stop)
    {
      ghost var before, entries := rules, RuleEntries(provider, submitted);
      var i := 0;
      while i < |submitted|
        invariant i <= |submitted| && rules == PutEach(before, entries[..i]) && (stop.Some? ==> i <= stop.value)
      {
        if stop == Some(i) { return false; }
        assert entries[..i + 1][..i] == entries[..i];
        var row := RuleEntry(provider, submitted[i]);
        var at := Find(rules, row.key);
        if at < |rules| {
          rules := rules[at := row];
        } else {
          rules := rules + [row];
        }
        i := i + 1;
      }
      assert entries[..i] == entries;
      return stop == None;
    }

    /** Marks the rows of a provider that were not submitted, as far as it gets. */
    method RetireOmitted(provider: Id, codes: set<string>, stop: nat)
      modifies `capabilities
      ensures capabilities == RetireUpto(old(capabilities), provider, codes, stop)
      ensures forall i | 0 <= i < |old(capabilities)| ::
                var row := old(capabilities)[i];
                capabilities[i] == if i < stop && row.key.provider == provider && UpperCode(row.key.code) !in codes
                                   then Row(row.key, CapabilityValue("INACTIVE", row.value.details, true)) else row
    {
      hide UpperCode;
      ghost var before := capabilities;
      var i := 0;
      while i < |capabilities| && i < stop
        invariant i <= |capabilities| == |before| && i <= stop
        invariant forall j | 0 <= j < i :: capabilities[j] == Retired(before[j], provider, codes)
        invariant forall j | i <= j < |capabilities| :: capabilities[j] == before[j]
      {
        var row := capabilities[i];
        if row.key.provider == provider && UpperCode(row.key.code) !in codes {
          capabilities := capabilities[i := row.(value := row.value.(status := "INACTIVE", retired := true))];
        }
        i := i + 1;
      }
      assert capabilities == RetireUpto(before, provider, codes, stop);
    }

    /** Updates the row with this key, or inserts it. */
    method WriteCapability(row: CapabilityRow)
      modifies `capabilities
      ensures capabilities == Put(old(capabilities), row)
    {
      var at := Find(capabilities, row.key);
      if at < |capabilities| {
        capabilities := capabilities[at := row];
      } else {
        capabilities := capabilities + [row];
      }
    }

    /** Writes the entries that have a code, until an error ends it. */
    method WriteEntries(provider: Id, submitted: seq<Capability>, active: bool, stop: Option<nat>)
      returns (result: Option<nat>)
      modifies `capabilities
      ensures var entries := Entries(provider, submitted, active);
              && capabilities == PutEach(old(capabilities), if stop.None? then entries else Upto(entries, stop.value))
              && result == if stop.None? then Some(|entries|) else None
    {
      hide UpperCode, Put, Find, EntryFor, Entries;
      ghost var before, entries := capabilities, Entries(provider, submitted, active);
      var i, saved := 0, 0;
      NoEntries(provider, submitted, active);
      while i < |submitted|
        invariant i <= |submitted| && saved <= |entries| && entries[..saved] == Entries(provider, submitted[..i], active)
        invariant capabilities == PutEach(before, entries[..saved])
        invariant stop.Some? ==> saved <= stop.value
      {
        var capability := submitted[i];
        EntriesStep(provider, submitted, active, i);
        if UpperCode(capability.code) != "" {
          if stop == Some(saved) { return None; }
          assert entries[..saved + 1][..saved] == entries[..saved];
          WriteCapability(EntryFor(provider, capability, active));
          saved := saved + 1;
        }
        i := i + 1;
      }
      assert submitted[..i] == submitted && entries[..saved] == entries;
      return if stop == None then Some(saved) else None;
    }

    /** Retires what was not submitted, then writes what was; returns how many entries it wrote, or nothing
        when an error ends it. */
    method SaveRailCapabilities(provider: Id, submitted: seq<Capability>, active: bool, stop: Stop)
      returns (result: Option<nat>)
      modifies `capabilities
      ensures capabilities == SaveCapabilitiesUntil(old(capabilities), provider, submitted, active, stop)
      ensures result == if stop.Never? then Some(|Entries(provider, submitted, active)|) else None
    {
      hide PutEach, Entries, Codes, Retired;
      ghost var before := capabilities;
      RetireOmitted(provider, Codes(submitted), if stop.Retiring? then stop.rows else |capabilities|);
      if stop.Retiring? { return None; }
      assert capabilities == Retire(before, provider, Codes(submitted));
      result := WriteEntries(provider, submitted, active, if stop.Writing? then Some(stop.entries) else None);
    }
  }

  lemma NoEntries(provider: Id, capabilities: seq<Capability>, active: bool)
    ensures Entries(provider, capabilities[..0], active) == []
  {
  }

  /** The entries of a longer part of the submission extend those of a shorter one. */
  lemma EntriesStep(provider: Id, capabilities: seq<Capability>, active: bool, i: nat)
    requires i < |capabilities|
    ensures var c := capabilities[i]; var some := Entries(provider, capabilities[..i], active);
            Entries(provider, capabilities[..i + 1], active)
            == if UpperCode(c.code) == "" then some else some + [EntryFor(provider, c, active)]
    ensures Entries(provider, capabilities[..i + 1], active) <= Entries(provider, capabilities, active)
  {
    hide UpperCode, EntryFor;
    assert capabilities[..i + 1][..i] == capabilities[..i];
    EntriesPrefix(provider, capabilities, active, i + 1);
  }

  lemma {:induction false} EntriesPrefix(provider: Id, capabilities: seq<Capability>, active: bool, n: nat)
    requires n <= |capabilities|
    ensures Entries(provider, capabilities[..n], active) <= Entries(provider, capabilities, active)
    decreases |capabilities|
  {
    hide UpperCode, EntryFor;
    if n == |capabilities| {
      assert capabilities[..n] == capabilities;
    } else {
      var front := capabilities[..|capabilities| - 1];
      assert front[..n] == capabilities[..n];
      EntriesPrefix(provider, front, active, n);
    }
  }

  // -------------------------------------------------------------------------------------------- convergence

  lemma {:induction false} TrimEndUpper(s: string)
    ensures TrimEnd(Upper(s)) == Upper(TrimEnd(s))
    decreases |s|
  {
    if s != "" && IsSpace(s[|s| - 1]) {
      assert Upper(s)[..|s| - 1] == Upper(s[..|s| - 1]);
      TrimEndUpper(s[..|s| - 1]);
    }
  }

  lemma {:induction false} TrimStartUpper(s: string)
    ensures TrimStart(Upper(s)) == Upper(TrimStart(s))
    decreases |s|
  {
    if s != "" && IsSpace(s[0]) {
      assert Upper(s)[1..] == Upper(s[1..]);
      TrimStartUpper(s[1..]);
    }
  }

  lemma UpperCodeTwice(s: string)
    ensures UpperCode(UpperCode(s)) == UpperCode(s)
  {
    TrimTrims(s);
    TrimStartUpper(Trim(s));
    TrimEndUpper(TrimStart(Trim(s)));
    TrimTrims(Trim(s));
    assert Trim(Upper(Trim(s))) == Upper(Trim(s)) by {
      TrimStartUpper(Trim(s));
      TrimEndUpper(TrimStart(Trim(s)));
    }
    assert Upper(Upper(Trim(s))) == Upper(Trim(s));
  }

  lemma {:induction false} EntriesFor(provider: Id, capabilities: seq<Capability>, active: bool, key: CapabilityKey)
    ensures LastFor(Entries(provider, capabilities, active), key)
         == if key.provider == provider && key.code != "" && LastWith(capabilities, key.code).Some?
            then Some(EntryFor(provider, LastWith(capabilities, key.code).value, active).value) else None
  {
    hide UpperCode;
    if capabilities != [] {
      EntriesFor(provider, capabilities[..|capabilities| - 1], active, key);
    }
  }

  lemma {:induction false} LastWithIsCode(capabilities: seq<Capability>, code: string)
    ensures LastWith(capabilities, code).Some? && code != "" <==> code in Codes(capabilities)
  {
    hide UpperCode;
    if capabilities != [] {
      var n := |capabilities| - 1;
      LastWithIsCode(capabilities[..n], code);
      assert capabilities == capabilities[..n] + [capabilities[n]];
      if code in Codes(capabilities) && UpperCode(capabilities[n].code) != code {
        var c :| c in capabilities && UpperCode(c.code) == code;
        assert c in capabilities[..n];
      }
      if code in Codes(capabilities[..n]) {
        var c :| c in capabilities[..n] && UpperCode(c.code) == code;
        assert c in capabilities;
      }
    }
  }

  /** The keys of a table are unique and its codes are stored as they are compared. */
  ghost predicate WellKept(rows: seq<CapabilityRow>) {
    KeysUnique(rows) && forall r | r in rows :: UpperCode(r.key.code) == r.key.code
  }

  lemma RetireKeeps(rows: seq<CapabilityRow>, provider: Id, codes: set<string>)
    requires WellKept(rows)
    ensures WellKept(Retire(rows, provider, codes)) && |Retire(rows, provider, codes)| == |rows|
  {
    hide UpperCode;
    var retired := Retire(rows, provider, codes);
    forall r | r in retired ensures UpperCode(r.key.code) == r.key.code {
      var i :| 0 <= i < |rows| && retired[i] == r;
      assert r.key == rows[i].key && rows[i] in rows;
    }
  }

  lemma UpperWords()
    ensures UpperCode("ACTIVE") == "ACTIVE" && UpperCode("INACTIVE") == "INACTIVE"
  {
  }

  /** A row as a submitted capability states it: under its code in capitals, with its own status in capitals if it
      gives one, and with that of the save otherwise. */
  ghost predicate Lists(r: CapabilityRow, provider: Id, c: Capability, active: bool) {
    && r.key.provider == provider && r.key.code == UpperCode(c.code)
    && (c.status != "" ==> r.value.status == UpperCode(c.status))
    && (c.status == "" ==> r.value.status == if active then "ACTIVE" else "INACTIVE")
    && r.value.details == c.details && !r.value.retired
  }

  /** A row as the last submitted capability with its code states it. */
  ghost predicate IsLast(r: CapabilityRow, provider: Id, capabilities: seq<Capability>, active: bool) {
    exists i | 0 <= i < |capabilities| ::
      && Lists(r, provider, capabilities[i], active)
      && forall j | i < j < |capabilities| :: UpperCode(capabilities[j].code) != r.key.code
  }

  lemma {:induction false} LastWithIsLast(provider: Id, capabilities: seq<Capability>, active: bool, code: string)
    requires LastWith(capabilities, code).Some?
    ensures IsLast(EntryFor(provider, LastWith(capabilities, code).value, active), provider, capabilities, active)
  {
    hide UpperCode, EntryFor, Lists;
    var n := |capabilities| - 1;
    if UpperCode(capabilities[n].code) == code {
      EntryLists(provider, capabilities[n], active);
    } else {
      LastWithIsLast(provider, capabilities[..n], active, code);
      LastWithHasCode(capabilities, code);
      var e := EntryFor(provider, LastWith(capabilities, code).value, active);
      EntryCode(provider, LastWith(capabilities, code).value, active);
      var i :| 0 <= i < n && Lists(e, provider, capabilities[..n][i], active)
               && forall j | i < j < n :: UpperCode(capabilities[..n][j].code) != e.key.code;
      assert capabilities[..n][i] == capabilities[i];
      forall j | i < j < |capabilities| ensures UpperCode(capabilities[j].code) != e.key.code {
        if j < n { assert capabilities[..n][j] == capabilities[j]; }
      }
    }
  }

  lemma EntryCode(provider: Id, c: Capability, active: bool)
    ensures EntryFor(provider, c, active).key == CapabilityKey(provider, UpperCode(c.code))
  {
  }

  lemma EntryLists(provider: Id, c: Capability, active: bool)
    ensures Lists(EntryFor(provider, c, active), provider, c, active)
  {
    UpperWords();
    hide UpperCode;
  }

  lemma CapabilitiesAre(rows: seq<CapabilityRow>, provider: Id, capabilities: seq<Capability>, active: bool)
    requires WellKept(rows)
    ensures var after := SaveCapabilities(rows, provider, capabilities, active);
            && WellKept(after) && |rows| <= |after| && (forall i | 0 <= i < |rows| :: after[i].key == rows[i].key)
            && (forall i | 0 <= i < |rows| :: after[i] ==
                  if rows[i].key.provider != provider then rows[i]
                  else if rows[i].key.code in Codes(capabilities) && LastWith(capabilities, rows[i].key.code).Some?
                  then EntryFor(provider, LastWith(capabilities, rows[i].key.code).value, active)
                  else rows[i].(value := rows[i].value.(status := "INACTIVE", retired := true)))
            && (forall i | |rows| <= i < |after| ::
                  && after[i].key.provider == provider && after[i].key.code in Codes(capabilities)
                  && LastWith(capabilities, after[i].key.code).Some?
                  && after[i] == EntryFor(provider, LastWith(capabilities, after[i].key.code).value, active))
  {
    hide UpperCode, PutEach, LastFor, LastWith, Codes, Entries;
    var codes, entries := Codes(capabilities), Entries(provider, capabilities, active);
    var retired := Retire(rows, provider, codes);
    var after := SaveCapabilities(rows, provider, capabilities, active);
    RetireKeeps(rows, provider, codes);
    PutEachRows(retired, entries);
    forall i | 0 <= i < |after|
      ensures LastFor(entries, after[i].key)
           == if after[i].key.provider == provider && after[i].key.code != "" && LastWith(capabilities, after[i].key.code).Some?
              then Some(EntryFor(provider, LastWith(capabilities, after[i].key.code).value, active).value) else None
      ensures LastWith(capabilities, after[i].key.code).Some? && after[i].key.code != "" <==> after[i].key.code in codes
    {
      EntriesFor(provider, capabilities, active, after[i].key);
      LastWithIsCode(capabilities, after[i].key.code);
    }
    forall i | 0 <= i < |rows| ensures after[i].key == rows[i].key && UpperCode(rows[i].key.code) == rows[i].key.code {
      assert rows[i] in rows;
    }
    forall i | 0 <= i < |after| && LastWith(capabilities, after[i].key.code).Some?
      ensures UpperCode(LastWith(capabilities, after[i].key.code).value.code) == after[i].key.code
      ensures UpperCode(after[i].key.code) == after[i].key.code
    {
      LastWithHasCode(capabilities, after[i].key.code);
      UpperCodeTwice(LastWith(capabilities, after[i].key.code).value.code);
    }
  }

  lemma CodeIsListed(rows: seq<CapabilityRow>, provider: Id, capabilities: seq<Capability>, active: bool, code: string)
    requires code in Codes(capabilities)
    ensures exists i | 0 <= i < |SaveCapabilities(rows, provider, capabilities, active)| ::
              SaveCapabilities(rows, provider, capabilities, active)[i].key == CapabilityKey(provider, code)
  {
    hide UpperCode, PutEach, Codes, Entries, Retire, EntryFor;
    var key := CapabilityKey(provider, code);
    PutEachLookup(Retire(rows, provider, Codes(capabilities)), Entries(provider, capabilities, active), key);
    EntriesFor(provider, capabilities, active, key);
    LastWithIsCode(capabilities, code);
    var after := SaveCapabilities(rows, provider, capabilities, active);
    assert Lookup(after, key).Some?;
    assert after[Find(after, key)].key == key;
  }

  /** What one save makes of each row, with nothing failing: rows of other providers stay as they are; rows
      of this provider become the last submitted entry for their code, or inactive when there is none; no
      row moves or is deleted; each new row is the last submitted entry for its code; and every submitted code has
      a row. */
  lemma CapabilitiesConverge(rows: seq<CapabilityRow>, provider: Id, capabilities: seq<Capability>, active: bool)
    requires WellKept(rows)
    ensures var after := SaveCapabilities(rows, provider, capabilities, active);
            && WellKept(after) && |rows| <= |after| && (forall i | 0 <= i < |rows| :: after[i].key == rows[i].key)
            && (forall i | 0 <= i < |rows| ::
                  if rows[i].key.provider == provider && rows[i].key.code in Codes(capabilities)
                  then IsLast(after[i], provider, capabilities, active)
                  else after[i].value == if rows[i].key.provider != provider then rows[i].value
                                         else CapabilityValue("INACTIVE", rows[i].value.details, true))
            && (forall i | |rows| <= i < |after| :: IsLast(after[i], provider, capabilities, active))
            && forall code | code in Codes(capabilities) :: exists i | 0 <= i < |after| :: after[i].key == CapabilityKey(provider, code)
  {
    hide UpperCode, SaveCapabilities, IsLast, EntryFor, KeysUnique, LastWith;
    var after := SaveCapabilities(rows, provider, capabilities, active);
    forall code | code in Codes(capabilities) ensures exists i | 0 <= i < |after| :: after[i].key == CapabilityKey(provider, code) {
      CodeIsListed(rows, provider, capabilities, active, code);
    }
    CapabilitiesAre(rows, provider, capabilities, active);
    forall i | 0 <= i < |after| && LastWith(capabilities, after[i].key.code).Some?
      ensures IsLast(EntryFor(provider, LastWith(capabilities, after[i].key.code).value, active), provider, capabilities, active)
    {
      LastWithIsLast(provider, capabilities, active, after[i].key.code);
    }
    forall i | 0 <= i < |rows| && rows[i].key.code in Codes(capabilities) ensures LastWith(capabilities, rows[i].key.code).Some? {
      LastWithIsCode(capabilities, rows[i].key.code);
    }
  }

  lemma {:induction false} LastWithHasCode(capabilities: seq<Capability>, code: string)
    requires LastWith(capabilities, code).Some?
    ensures UpperCode(LastWith(capabilities, code).value.code) == code
  {
    hide UpperCode;
    if UpperCode(capabilities[|capabilities| - 1].code) != code {
      LastWithHasCode(capabilities[..|capabilities| - 1], code);
    }
  }

  /** Saving the same capabilities once more changes nothing. */
  lemma CapabilitiesSavedTwice(rows: seq<CapabilityRow>, provider: Id, capabilities: seq<Capability>, active: bool)
    requires WellKept(rows)
    ensures var once := SaveCapabilities(rows, provider, capabilities, active);
            SaveCapabilities(once, provider, capabilities, active) == once
  {
    var once, codes := SaveCapabilities(rows, provider, capabilities, active), Codes(capabilities);
    CapabilitiesAre(rows, provider, capabilities, active);
    RetireKeeps(rows, provider, codes);
    forall i | 0 <= i < |once| ensures Retired(once[i], provider, codes) == once[i] {
      assert once[i] in once;
      LastWithIsCode(capabilities, once[i].key.code);
      hide UpperCode, SaveCapabilities, LastWith, Codes, KeysUnique, EntryFor;
    }
    assert Retire(once, provider, codes) == once;
    hide UpperCode, PutEach, LastWith, Codes, Entries, WellKept;
    PutEachTwice(Retire(rows, provider, codes), Entries(provider, capabilities, active)) by {
      UniqueKeys(Retire(rows, provider, codes));
    }
  }

  lemma UniqueKeys(rows: seq<CapabilityRow>)
    requires WellKept(rows)
    ensures KeysUnique(rows)
  {
  }

  /** The key under which a rule is stored; a country or currency that is left empty is stored as null. */
  ghost predicate Keys(key: RuleKey, provider: Id, r: RoutingRule) {
    && key.provider == provider && key.rail == r.rail && key.operation == r.operation
    && (if r.country == "" then key.country.None? else key.country == Some(r.country))
    && (if r.currency == "" then key.currency.None? else key.currency == Some(r.currency))
  }

  lemma {:induction false} LastRule(provider: Id, rules: seq<RoutingRule>, key: RuleKey)
    ensures match LastFor(RuleEntries(provider, rules), key)
            case None => forall i | 0 <= i < |rules| :: !Keys(key, provider, rules[i])
            case Some(v) => exists i | 0 <= i < |rules| ::
              && Keys(key, provider, rules[i]) && rules[i].value == v
              && forall j | i < j < |rules| :: !Keys(key, provider, rules[j])
  {
    hide Keys;
    if rules != [] {
      var n := |rules| - 1;
      var entries := RuleEntries(provider, rules);
      LastRule(provider, rules[..n], key);
      assert entries[..n] == RuleEntries(provider, rules[..n]);
      KeyOfEntry(provider, rules[n], key);
      if Keys(key, provider, rules[n]) {
        assert entries[n].value == rules[n].value;
      } else if LastFor(entries, key).Some? {
        var i :| 0 <= i < n && Keys(key, provider, rules[..n][i]) && rules[..n][i].value == LastFor(entries, key).value
                 && forall j | i < j < n :: !Keys(key, provider, rules[..n][j]);
        forall j | i < j < |rules| ensures !Keys(key, provider, rules[j]) { if j < n { assert rules[j] == rules[..n][j]; } }
        assert rules[i] == rules[..n][i];
      } else {
        forall i | 0 <= i < |rules| ensures !Keys(key, provider, rules[i]) { if i < n { assert rules[i] == rules[..n][i]; } }
      }
    }
  }

  lemma KeyOfEntry(provider: Id, r: RoutingRule, key: RuleKey)
    ensures RuleEntry(provider, r).key == key <==> Keys(key, provider, r)
  {
  }

  /** After a save, each routing key has the last rule submitted for it, and every other key keeps what it had;
      saving the same rules once more changes nothing. */
  lemma RulesAreLastWins(rows: seq<RuleRow>, provider: Id, rules: seq<RoutingRule>, key: RuleKey)
    requires KeysUnique(rows)
    ensures var once := SaveRules(rows, provider, rules);
            && KeysUnique(once) && SaveRules(once, provider, rules) == once
            && (forall i | 0 <= i < |rules| && Keys(key, provider, rules[i])
                           && (forall j | i < j < |rules| :: !Keys(key, provider, rules[j])) ::
                  Lookup(once, key) == Some(rules[i].value))
            && ((forall i | 0 <= i < |rules| :: !Keys(key, provider, rules[i])) ==> Lookup(once, key) == Lookup(rows, key))
  {
    hide Keys;
    var entries := RuleEntries(provider, rules);
    PutEachLookup(rows, entries, key);
    PutEachRows(rows, entries);
    PutEachTwice(rows, entries);
    LastRule(provider, rules, key);
  }

  /** Every routing row of the provider is one that was submitted. */
  ghost predicate OnlySubmitted(rows: seq<RuleRow>, provider: Id, rules: seq<RoutingRule>) {
    forall r | r in rows && r.key.provider == provider :: LastFor(RuleEntries(provider, rules), r.key) == Some(r.value)
  }

  /** Rules that are left out of a submission are not retired, so the routing table becomes what was submitted
      exactly when the submission has every key the provider already had. */
  lemma RoutingConvergesExactly(rows: seq<RuleRow>, provider: Id, rules: seq<RoutingRule>)
    requires KeysUnique(rows)
    ensures OnlySubmitted(SaveRules(rows, provider, rules), provider, rules)
       <==> forall r | r in rows && r.key.provider == provider :: LastFor(RuleEntries(provider, rules), r.key).Some?
  {
    hide PutEach, LastFor, RuleEntries;
    var entries, after := RuleEntries(provider, rules), SaveRules(rows, provider, rules);
    PutEachRows(rows, entries);
    if OnlySubmitted(after, provider, rules) {
      forall r | r in rows && r.key.provider == provider ensures LastFor(entries, r.key).Some? {
        var i :| 0 <= i < |rows| && rows[i] == r;
        assert after[i] in after && after[i].key == r.key;
      }
    }
    if forall r | r in rows && r.key.provider == provider :: LastFor(entries, r.key).Some? {
      forall r | r in after && r.key.provider == provider ensures LastFor(entries, r.key) == Some(r.value) {
        var i :| 0 <= i < |after| && after[i] == r;
        if i < |rows| { assert rows[i] in rows; }
      }
    }
  }

  /** Two rules with different keys, and then a configuration with the first one only: the second stays in
      force. */
  lemma OmittedRuleStays(provider: Id, kept: RoutingRule, omitted: RoutingRule)
    requires RuleEntry(provider, kept).key != RuleEntry(provider, omitted).key
    ensures var rows := SaveRules([], provider, [kept, omitted]);
            && Lookup(SaveRules(rows, provider, [kept]), RuleEntry(provider, omitted).key) == Some(omitted.value)
            && !OnlySubmitted(SaveRules(rows, provider, [kept]), provider, [kept])
  {
    var k, o := RuleEntry(provider, kept), RuleEntry(provider, omitted);
    assert RuleEntries(provider, [kept, omitted]) == [k, o] && RuleEntries(provider, [kept]) == [k];
    assert [k, o][..1] == [k] && [k][..0] == [];
    var rows := SaveRules([], provider, [kept, omitted]);
    assert PutEach([], [k]) == [k] && rows == [k, o];
    PutEachLookup(rows, [k], o.key);
    RoutingConvergesExactly(rows, provider, [kept]);
    assert o in rows && LastFor([k], o.key) == None;
  }

  // ------------------------------------------------------------------------------------- interrupted saves

  /** A save of rules that stopped anywhere and is done again ends where an undisturbed save would have. */
  lemma InterruptedRulesConverge(rows: seq<RuleRow>, provider: Id, rules: seq<RoutingRule>, stop: Option<nat>)
    requires KeysUnique(rows)
    ensures KeysUnique(SaveRulesUntil(rows, provider, rules, stop))
    ensures SaveRules(SaveRulesUntil(rows, provider, rules, stop), provider, rules) == SaveRules(rows, provider, rules)
  {
    hide PutEach, KeysUnique;
    var entries := RuleEntries(provider, rules);
    var n := if stop.Some? && stop.value <= |entries| then stop.value else |entries|;
    assert entries[..|entries|] == entries;
    PutEachRows(rows, entries[..n]);
    PutEachResumes(rows, entries, n);
  }

  lemma RetireAgain(rows: seq<CapabilityRow>, provider: Id, codes: set<string>, n: nat)
    ensures Retire(RetireUpto(rows, provider, codes, n), provider, codes) == Retire(rows, provider, codes)
  {
    hide UpperCode;
  }

  /** A row of this table that retiring leaves as it is. */
  ghost predicate Settled(r: CapabilityRow, provider: Id, codes: set<string>) {
    Retired(r, provider, codes) == r && UpperCode(r.key.code) == r.key.code
  }

  /** What writing submitted entries over settled rows leaves is settled. */
  lemma WrittenRowsSettled(rows: seq<CapabilityRow>, entries: seq<CapabilityRow>, provider: Id, codes: set<string>)
    requires KeysUnique(rows) && forall r | r in rows :: Settled(r, provider, codes)
    requires forall e | e in entries :: e.key.code in codes && UpperCode(e.key.code) == e.key.code
    ensures KeysUnique(PutEach(rows, entries)) && forall r | r in PutEach(rows, entries) :: Settled(r, provider, codes)
  {
    hide UpperCode, PutEach, LastFor, KeysUnique;
    var written := PutEach(rows, entries);
    PutEachRows(rows, entries);
    forall r | r in written ensures Settled(r, provider, codes) {
      var i :| 0 <= i < |written| && written[i] == r;
      if i < |rows| && LastFor(entries, rows[i].key).None? {
        assert rows[i] in rows;
      } else {
        LastForIsEntry(entries, r.key);
      }
    }
  }

  /** Retiring changes no row that a first save, complete or not, has left. */
  lemma RetireAfterWriting(rows: seq<CapabilityRow>, provider: Id, capabilities: seq<Capability>, active: bool, n: nat)
    requires WellKept(rows) && n <= |Entries(provider, capabilities, active)|
    ensures var written := PutEach(Retire(rows, provider, Codes(capabilities)), Entries(provider, capabilities, active)[..n]);
            Retire(written, provider, Codes(capabilities)) == written && WellKept(written)
  {
    var codes, entries := Codes(capabilities), Entries(provider, capabilities, active);
    var retired := Retire(rows, provider, codes);
    RetireKeeps(rows, provider, codes);
    forall e | e in entries[..n] ensures e.key.code in codes && UpperCode(e.key.code) == e.key.code {
      assert e in entries;
      EntryIsSubmitted(provider, capabilities, active, e);
    }
    hide UpperCode, PutEach, Codes, Entries;
    assert forall r | r in retired :: Settled(r, provider, codes);
    WrittenRowsSettled(retired, entries[..n], provider, codes);
    var written := PutEach(retired, entries[..n]);
    forall i | 0 <= i < |written| ensures Retired(written[i], provider, codes) == written[i] {
      assert Settled(written[i], provider, codes);
    }
  }

  lemma {:induction false} EntryIsSubmitted(provider: Id, capabilities: seq<Capability>, active: bool, e: CapabilityRow)
    requires e in Entries(provider, capabilities, active)
    ensures e.key.provider == provider && e.key.code in Codes(capabilities) && UpperCode(e.key.code) == e.key.code
  {
    hide UpperCode;
    var n := |capabilities| - 1;
    var c := capabilities[n];
    assert c in capabilities;
    if UpperCode(c.code) != "" && e == EntryFor(provider, c, active) {
      UpperCodeTwice(c.code);
    } else {
      EntryIsSubmitted(provider, capabilities[..n], active, e);
      var d :| d in capabilities[..n] && UpperCode(d.code) == e.key.code;
      assert d in capabilities;
    }
  }

  /** A save of capabilities that stopped anywhere, in retiring or in writing, and is done again ends where an
      undisturbed save would have. */
  lemma InterruptedCapabilitiesConverge(
    rows: seq<CapabilityRow>, provider: Id, capabilities: seq<Capability>, active: bool, stop: Stop)
    requires WellKept(rows)
    ensures var partial := SaveCapabilitiesUntil(rows, provider, capabilities, active, stop);
            && WellKept(partial)
            && SaveCapabilities(partial, provider, capabilities, active) == SaveCapabilities(rows, provider, capabilities, active)
  {
    var codes, entries := Codes(capabilities), Entries(provider, capabilities, active);
    match stop
    case Never =>
      CapabilitiesConverge(rows, provider, capabilities, active);
      CapabilitiesSavedTwice(rows, provider, capabilities, active);
    case Retiring(n) =>
      RetireAgain(rows, provider, codes, n);
      RetireUptoKeeps(rows, provider, codes, n);
    case Writing(n) =>
      var m := if n <= |entries| then n else |entries|;
      RetireKeeps(rows, provider, codes);
      RetireAfterWriting(rows, provider, capabilities, active, m);
      assert entries[..|entries|] == entries;
      UniqueKeys(Retire(rows, provider, codes));
      hide UpperCode, Codes, Entries, PutEach, Retire, WellKept;
      PutEachResumes(Retire(rows, provider, codes), entries, m);
  }

  lemma RetireUptoKeeps(rows: seq<CapabilityRow>, provider: Id, codes: set<string>, n: nat)
    requires WellKept(rows)
    ensures WellKept(RetireUpto(rows, provider, codes, n))
  {
    hide UpperCode;
    var retired := RetireUpto(rows, provider, codes, n);
    forall r | r in retired ensures UpperCode(r.key.code) == r.key.code {
      var i :| 0 <= i < |rows| && retired[i] == r;
      assert r.key == rows[i].key && rows[i] in rows;
    }
  }

  // --------------------------------------------------------------------------------------- whole histories

  datatype Commit =
    | Versioned(save: Save)
    | Routed(ruleProvider: Id, rules: seq<RoutingRule>, ruleStop: Option<nat>)
    | Listed(provider: Id, capabilities: seq<Capability>, active: bool, stop: Stop)

  datatype Tables = Tables(versions: seq<Version>, rules: seq<RuleRow>, capabilities: seq<CapabilityRow>)

  function Apply(t: Tables, c: Commit): Tables {
    match c
    case Versioned(save) => t.(versions := SaveVersion(t.versions, save))
    case Routed(provider, rules, stop) => t.(rules := SaveRulesUntil(t.rules, provider, rules, stop))
    case Listed(provider, capabilities, active, stop) =>
      t.(capabilities := SaveCapabilitiesUntil(t.capabilities, provider, capabilities, active, stop))
  }

  function History(commits: seq<Commit>): Tables {
    if commits == [] then Tables([], [], []) else Apply(History(commits[..|commits| - 1]), commits[|commits| - 1])
  }

  /** From empty tables, every history of saves, finished or interrupted, keeps one row per routing key and one
      per provider and code. */
  lemma {:induction false} HistoryKeepsKeys(commits: seq<Commit>)
    ensures KeysUnique(History(commits).rules) && WellKept(History(commits).capabilities)
  {
    hide SaveVersion, WellKept, KeysUnique, SaveRulesUntil, SaveCapabilitiesUntil;
    if commits == [] {
      EmptyTables();
    } else {
      var before := History(commits[..|commits| - 1]);
      HistoryKeepsKeys(commits[..|commits| - 1]);
      match commits[|commits| - 1]
      case Versioned(_) =>
      case Routed(provider, rules, stop) => InterruptedRulesConverge(before.rules, provider, rules, stop);
      case Listed(provider, capabilities, active, stop) =>
        InterruptedCapabilitiesConverge(before.capabilities, provider, capabilities, active, stop);
    }
  }

  /** The saves of versions among a history's commits. */
  function VersionSaves(commits: seq<Commit>): seq<Save> {
    if commits == [] then []
    else VersionSaves(commits[..|commits| - 1])
         + match commits[|commits| - 1] case Versioned(save) => [save] case _ => []
  }

  /** The versions of any history are those of its saves of versions alone. */
  lemma {:induction false} HistoryOfVersions(commits: seq<Commit>)
    ensures History(commits).versions == SaveVersions([], VersionSaves(commits))
  {
    hide SaveVersion;
    if commits != [] {
      var front := commits[..|commits| - 1];
      HistoryOfVersions(front);
      assert VersionSaves(front) + [] == VersionSaves(front);
    }
  }

  /** After any history, a finished save of rules decides what every key has and touches no other table. */
  lemma HistoryThenRules(commits: seq<Commit>, provider: Id, rules: seq<RoutingRule>, key: RuleKey)
    ensures var before, after := History(commits), History(commits + [Routed(provider, rules, None)]);
            && after.capabilities == before.capabilities && after.versions == before.versions
            && (forall i | 0 <= i < |rules| && Keys(key, provider, rules[i])
                           && (forall j | i < j < |rules| :: !Keys(key, provider, rules[j])) ::
                  Lookup(after.rules, key) == Some(rules[i].value))
            && ((forall i | 0 <= i < |rules| :: !Keys(key, provider, rules[i])) ==> Lookup(after.rules, key) == Lookup(before.rules, key))
  {
    hide Keys, SaveRules, KeysUnique, Lookup;
    var c := Routed(provider, rules, None);
    assert (commits + [c])[..|commits|] == commits;
    HistoryKeepsKeys(commits);
    RulesAreLastWins(History(commits).rules, provider, rules, key);
  }

  /** After any history, a finished save of capabilities leaves the provider the last submitted entry for every
      submitted code, everything else inactive, and touches no other table. */
  lemma HistoryThenCapabilities(commits: seq<Commit>, provider: Id, capabilities: seq<Capability>, active: bool)
    ensures var before, after := History(commits), History(commits + [Listed(provider, capabilities, active, Never)]);
            && after.rules == before.rules && after.versions == before.versions
            && (forall r | r in after.capabilities && r.key.provider == provider ::
                  if r.key.code in Codes(capabilities) then IsLast(r, provider, capabilities, active)
                  else r.value.status == "INACTIVE" && r.value.retired)
            && forall code | code in Codes(capabilities) :: exists r :: r in after.capabilities && r.key == CapabilityKey(provider, code)
  {
    hide IsLast, Codes, SaveCapabilities, WellKept;
    var c := Listed(provider, capabilities, active, Never);
    assert (commits + [c])[..|commits|] == commits;
    HistoryKeepsKeys(commits);
    var rows := History(commits).capabilities;
    CapabilitiesConverge(rows, provider, capabilities, active);
    NewRowsListed(rows, provider, capabilities, active);
    var after := SaveCapabilities(rows, provider, capabilities, active);
    forall code | code in Codes(capabilities) ensures exists r :: r in after && r.key == CapabilityKey(provider, code) {
      var i :| 0 <= i < |after| && after[i].key == CapabilityKey(provider, code);
      assert after[i] in after;
    }
    forall r | r in after && r.key.provider == provider
      ensures if r.key.code in Codes(capabilities) then IsLast(r, provider, capabilities, active)
              else r.value.status == "INACTIVE" && r.value.retired
    {
      var i :| 0 <= i < |after| && after[i] == r;
      if i < |rows| { assert after[i].key == rows[i].key; }
    }
  }

  lemma NewRowsListed(rows: seq<CapabilityRow>, provider: Id, capabilities: seq<Capability>, active: bool)
    requires WellKept(rows)
    ensures var after := SaveCapabilities(rows, provider, capabilities, active);
            |rows| <= |after| && forall i | |rows| <= i < |after| :: after[i].key.code in Codes(capabilities)
  {
    hide Codes, SaveCapabilities, WellKept, LastWith;
    CapabilitiesAre(rows, provider, capabilities, active);
  }

  lemma EmptyTables()
    ensures KeysUnique<RuleKey, RuleValue>([]) && WellKept([])
  {
  }

  // ------------------------------------------------------------------------------------ partner bank product

  function PerCurrency(operation: string, country: string, currencies: seq<string>, value: RuleValue): seq<RoutingRule> {
    seq(|currencies|, k requires 0 <= k < |currencies| => RoutingRule("BANK", operation, country, currencies[k], value))
  }

  function PerCountry(
    operation: string, countries: seq<string>, currencies: seq<string>, value: RuleValue): seq<RoutingRule>
  {
    if countries == [] then []
    else PerCurrency(operation, countries[0], currencies, value) + PerCountry(operation, countries[1..], currencies, value)
  }

  /** The routing rules of a partner bank. */
  function Product(
    operations: seq<string>, countries: seq<string>, currencies: seq<string>, value: RuleValue): seq<RoutingRule>
  {
    if operations == [] then []
    else PerCountry(operations[0], countries, currencies, value) + Product(operations[1..], countries, currencies, value)
  }

  /** Where block number `i` starts when every block has `size` elements. */
  function Offset(i: nat, size: nat): nat { i * size }

  lemma OffsetStep(i: nat, size: nat)
    requires i > 0
    ensures Offset(i, size) == size + Offset(i - 1, size)
  {
    assert i * size == size + (i - 1) * size;
  }

  lemma OffsetZero(size: nat)
    ensures Offset(0, size) == 0
  {
  }

  lemma {:induction false} PerCountryAt(
    operation: string, countries: seq<string>, currencies: seq<string>, value: RuleValue, j: nat, k: nat)
    ensures var rules := PerCountry(operation, countries, currencies, value);
            && |rules| == Offset(|countries|, |currencies|)
            && (j < |countries| && k < |currencies| ==>
                  && Offset(j, |currencies|) + k < |rules|
                  && rules[Offset(j, |currencies|) + k] == RoutingRule("BANK", operation, countries[j], currencies[k], value))
  {
    hide Offset;
    OffsetZero(|currencies|);
    if countries != [] {
      PerCountryAt(operation, countries[1..], currencies, value, if j > 0 then j - 1 else 0, k);
      OffsetStep(|countries|, |currencies|);
      if j > 0 { OffsetStep(j, |currencies|); }
    }
  }

  lemma {:induction false} BlockAt(
    operations: seq<string>, countries: seq<string>, currencies: seq<string>, value: RuleValue, m: nat, i: nat, o: nat)
    requires forall operation :: |PerCountry(operation, countries, currencies, value)| == m
    ensures var rules := Product(operations, countries, currencies, value);
            && |rules| == Offset(|operations|, m)
            && (i < |operations| && o < m ==>
                  && Offset(i, m) + o < |rules|
                  && rules[Offset(i, m) + o] == PerCountry(operations[i], countries, currencies, value)[o])
  {
    hide Offset, PerCountry;
    OffsetZero(m);
    if operations != [] {
      BlockAt(operations[1..], countries, currencies, value, m, if i > 0 then i - 1 else 0, o);
      OffsetStep(|operations|, m);
      if i > 0 { OffsetStep(i, m); }
    }
  }

  /** The rules are all combinations of operation, country and currency, each at its place in order. */
  lemma ProductAt(
    operations: seq<string>, countries: seq<string>, currencies: seq<string>, value: RuleValue, i: nat, j: nat, k: nat)
    ensures var rules, m := Product(operations, countries, currencies, value), |countries| * |currencies|;
            && |rules| == |operations| * m
            && (i < |operations| && j < |countries| && k < |currencies| ==>
                  && i * m + (j * |currencies| + k) < |rules|
                  && rules[i * m + (j * |currencies| + k)]
                  == RoutingRule("BANK", operations[i], countries[j], currencies[k], value))
  {
    hide Product, PerCountry;
    var m := Offset(|countries|, |currencies|);
    forall operation ensures |PerCountry(operation, countries, currencies, value)| == m {
      PerCountryAt(operation, countries, currencies, value, j, k);
    }
    BlockAt(operations, countries, currencies, value, m, i, Offset(j, |currencies|) + k);
    if i < |operations| { PerCountryAt(operations[i], countries, currencies, value, j, k); }
  }
}
