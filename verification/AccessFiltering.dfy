/** Which events an organization may see in an access zone: from subsources and criteria containers to
    the compiled SQL condition. */
module AccessFiltering {
  import opened Options
  import opened Conditions
  import opened CondHardening
  import opened CondOptimizing
  import opened IpNetworks
  import opened SqlConditions

  const INTERNAL: Value := 3      // of the enumeration public, need-to-know, internal

  /** One attribute of a criteria container. */
  datatype Attr =
    | IpNetworks(nets: seq<Network>)
    | Values(key: Column, values: seq<Value>)

  predicate IsCriterion(a: Attr) {
    a.IpNetworks? || a.key.Asn? || a.key.Cc? || a.key.Category? || a.key.Name?
  }

  predicate IsEmpty(a: Attr) {
    if a.IpNetworks? then a.nets == [] else a.values == []
  }

  type Container = seq<Attr>

  datatype Subsource = Subsource(dn: string, source: Value, inclusion: seq<Container>, exclusion: seq<Container>)

  datatype AssertionError = OnlyEmptyValueLists

  ghost predicate LegalAttr(a: Attr) {
    a.IpNetworks? ==> forall i | 0 <= i < |a.nets| :: a.nets[i].Valid()
  }

  ghost predicate LegalContainers(cs: seq<Container>) {
    forall i, j | 0 <= i < |cs| && 0 <= j < |cs[i]| :: LegalAttr(cs[i][j])
  }

  ghost predicate LegalSubsource(s: Subsource) {
    LegalContainers(s.inclusion) && LegalContainers(s.exclusion)
  }

  // ---------------------------------------------------------------- what access means

  /** An address column holds a plain IPv4 address. */
  ghost predicate LegalRow(row: Row) {
    Legal(row) && 0 <= row[Ip] < ADDRESSES
  }

  ghost predicate MatchesAttr(a: Attr, row: Row)
    requires LegalAttr(a) && LegalRow(row)
  {
    match a
    case IpNetworks(nets) => exists i :: 0 <= i < |nets| && InNetwork(nets[i], row[Ip])
    case Values(key, values) => key in row && row[key] in values
  }

  predicate HasCriteria(c: Container) {
    exists i :: 0 <= i < |c| && IsCriterion(c[i])
  }

  /** Does the container name any criterion, even one with an empty list? */
  ghost predicate NamesCriteria(c: Container) {
    exists a :: a in c && IsCriterion(a)
  }

  lemma HasCriteriaExactly(c: Container)
    ensures HasCriteria(c) <==> NamesCriteria(c)
  {
    if i :| 0 <= i < |c| && IsCriterion(c[i]) {
      assert c[i] in c;
    }
    if a :| a in c && IsCriterion(a) {
      var i :| 0 <= i < |c| && c[i] == a;
      assert IsCriterion(c[i]);
    }
  }

  /** The rule: the source, all inclusion criteria, no exclusion criteria; and, without full access,
      nothing internal and nothing ignored. */
  ghost predicate Selects(s: Subsource, fullAccess: bool, row: Row)
    requires LegalSubsource(s) && LegalRow(row)
  {
    MeetsCriteria(s, row) && (fullAccess || !IsHidden(row))
  }

  ghost predicate MeetsCriteria(s: Subsource, row: Row)
    requires LegalSubsource(s) && LegalRow(row)
  {
    && row[SourceId] == s.source
    && (forall i | 0 <= i < |s.inclusion| && NamesCriteria(s.inclusion[i]) :: Matches(s.inclusion, i, row))
    && (forall i | 0 <= i < |s.exclusion| && NamesCriteria(s.exclusion[i]) :: !Matches(s.exclusion, i, row))
  }

  ghost predicate IsHidden(row: Row)
    requires LegalRow(row)
  {
    row[Restriction] == INTERNAL || (Ignored in row && row[Ignored] != 0)
  }

  ghost predicate Matches(cs: seq<Container>, i: nat, row: Row)
    requires LegalContainers(cs) && LegalRow(row) && i < |cs|
  {
    exists j :: 0 <= j < |cs[i]| && IsCriterion(cs[i][j]) && MatchesAttr(cs[i][j], row)
  }

  // ---------------------------------------------------------------- conditions of a subsource

  /** `_iter_crit_conditions()`, of one attribute. */
  function CritConditions(a: Attr): set<Cond>
    requires LegalAttr(a)
  {
    match a
    case IpNetworks(nets) =>
      set i | 0 <= i < |nets| :: RecItem(Ip, Between(MinMaxIp(nets[i]).0, MinMaxIp(nets[i]).1))
    case Values(key, values) =>
      if values == [] then {} else {MakeIn(key, set v | v in values)}
  }

  function ContainerConds(cs: seq<Container>, i: nat): set<Cond>
    requires LegalContainers(cs) && i < |cs|
  {
    set j, c | 0 <= j < |cs[i]| && IsCriterion(cs[i][j]) && c in CritConditions(cs[i][j]) :: c
  }

  /** `_iter_container_conditions()` raises on a container whose criteria are all empty lists. */
  predicate Malformed(cs: seq<Container>)
    requires LegalContainers(cs)
  {
    exists i :: 0 <= i < |cs| && HasCriteria(cs[i]) && ContainerConds(cs, i) == {}
  }

  function ContainerConditions(cs: seq<Container>): set<Cond>
    requires LegalContainers(cs)
  {
    set i | 0 <= i < |cs| && HasCriteria(cs[i]) :: MakeOr(ContainerConds(cs, i))
  }

  /** `_get_subsource_condition()` */
  function SubsourceCondition(s: Subsource): Result<Cond, AssertionError>
    requires LegalSubsource(s)
  {
    if Malformed(s.inclusion) || Malformed(s.exclusion) then Err(OnlyEmptyValueLists)
    else
      Ok(MakeAnd({
        RecItem(SourceId, Equal(s.source)),
        MakeAnd(ContainerConditions(s.inclusion)),
        MakeAnd(set c | c in ContainerConditions(s.exclusion) :: MakeNot(c))}))
  }

  /** `_get_condition_for_subsource_and_full_access_flag()` */
  function AccessCondition(s: Subsource, fullAccess: bool): Result<Cond, AssertionError>
    requires LegalSubsource(s)
  {
    match SubsourceCondition(s)
    case Err(e) => Err(e)
    case Ok(c) =>
      Ok(if fullAccess then c else WithoutHidden(c))
  }

  function WithoutHidden(c: Cond): Cond {
    MakeAnd({c, MakeNot(RecItem(Restriction, Equal(INTERNAL))), MakeNot(RecItem(Ignored, IsTrue))})
  }

  // ---- what they mean

  lemma CritConditionsMean(a: Attr, row: Row)
    requires LegalAttr(a) && LegalRow(row)
    ensures (exists c :: c in CritConditions(a) && Eval(c, row)) <==> MatchesAttr(a, row)
    ensures AllBuilt(CritConditions(a))
  {
    match a
    case IpNetworks(nets) =>
      forall i | 0 <= i < |nets|
        ensures var c := RecItem(Ip, Between(MinMaxIp(nets[i]).0, MinMaxIp(nets[i]).1));
                c in CritConditions(a) && (Eval(c, row) <==> InNetwork(nets[i], row[Ip]))
      {
        RangeIsNetwork(nets[i], row[Ip]);
      }
    case Values(key, values) =>
      MakeInMeans(key, (set v | v in values), row);
      MakeInBuilt(key, (set v | v in values));
  }

  lemma ContainerCondsMean(cs: seq<Container>, i: nat, row: Row)
    requires LegalContainers(cs) && LegalRow(row) && i < |cs|
    ensures Eval(MakeOr(ContainerConds(cs, i)), row) <==> Matches(cs, i, row)
    ensures Built(MakeOr(ContainerConds(cs, i)))
  {
    var conds := ContainerConds(cs, i);
    forall j | 0 <= j < |cs[i]|
      ensures (exists c :: c in CritConditions(cs[i][j]) && Eval(c, row)) <==> MatchesAttr(cs[i][j], row)
      ensures AllBuilt(CritConditions(cs[i][j]))
    {
      CritConditionsMean(cs[i][j], row);
    }
    MakeMultiMeans(false, conds, row);
    MakeMultiBuilt(false, conds);
    if Matches(cs, i, row) {
      var j :| 0 <= j < |cs[i]| && IsCriterion(cs[i][j]) && MatchesAttr(cs[i][j], row);
      var c :| c in CritConditions(cs[i][j]) && Eval(c, row);
      assert c in conds;
    }
  }

  lemma ContainersMean(cs: seq<Container>, row: Row)
    requires LegalContainers(cs) && LegalRow(row)
    ensures AllBuilt(ContainerConditions(cs))
    ensures (forall c | c in ContainerConditions(cs) :: Eval(c, row))
            <==> (forall i | 0 <= i < |cs| && NamesCriteria(cs[i]) :: Matches(cs, i, row))
    ensures (forall c | c in ContainerConditions(cs) :: !Eval(c, row))
            <==> (forall i | 0 <= i < |cs| && NamesCriteria(cs[i]) :: !Matches(cs, i, row))
  {
    forall i | 0 <= i < |cs|
      ensures HasCriteria(cs[i]) <==> NamesCriteria(cs[i])
    {
      HasCriteriaExactly(cs[i]);
    }
    forall i | 0 <= i < |cs| && HasCriteria(cs[i])
      ensures var c := MakeOr(ContainerConds(cs, i));
              c in ContainerConditions(cs) && Built(c) && (Eval(c, row) <==> Matches(cs, i, row))
    {
      ContainerCondsMean(cs, i, row);
    }
  }

  lemma InclusionMeans(cs: seq<Container>, row: Row)
    requires LegalContainers(cs) && LegalRow(row)
    ensures Built(MakeAnd(ContainerConditions(cs)))
    ensures Eval(MakeAnd(ContainerConditions(cs)), row)
            <==> (forall i | 0 <= i < |cs| && NamesCriteria(cs[i]) :: Matches(cs, i, row))
  {
    ContainersMean(cs, row);
    MakeMultiMeans(true, ContainerConditions(cs), row);
    MakeMultiBuilt(true, ContainerConditions(cs));
  }

  lemma ExclusionMeans(cs: seq<Container>, row: Row)
    requires LegalContainers(cs) && LegalRow(row)
    ensures var nots := set c | c in ContainerConditions(cs) :: MakeNot(c);
            Built(MakeAnd(nots))
            && (Eval(MakeAnd(nots), row)
                <==> (forall i | 0 <= i < |cs| && NamesCriteria(cs[i]) :: !Matches(cs, i, row)))
  {
    var conds := ContainerConditions(cs);
    ContainersMean(cs, row);
    var nots := set c | c in conds :: MakeNot(c);
    forall c | c in conds
      ensures MakeNot(c) in nots && Eval(MakeNot(c), row) == !Eval(c, row) && Built(MakeNot(c))
    {
      MakeNotNegates(c, row);
      MakeNotBuilt(c);
    }
    MakeMultiMeans(true, nots, row);
    MakeMultiBuilt(true, nots);
  }

  lemma ThreeMean(a: Cond, b: Cond, c: Cond, row: Row)
    requires Built(a) && Built(b) && Built(c)
    ensures Built(MakeAnd({a, b, c}))
    ensures Eval(MakeAnd({a, b, c}), row) <==> Eval(a, row) && Eval(b, row) && Eval(c, row)
  {
    MakeMultiMeans(true, {a, b, c}, row);
    MakeMultiBuilt(true, {a, b, c});
    assert a in {a, b, c} && b in {a, b, c} && c in {a, b, c};
  }

  lemma SubsourceConditionMeans(s: Subsource, row: Row)
    requires LegalSubsource(s) && LegalRow(row) && SubsourceCondition(s).Ok?
    ensures Built(SubsourceCondition(s).value)
    ensures Eval(SubsourceCondition(s).value, row) <==> MeetsCriteria(s, row)
  {
    var source := RecItem(SourceId, Equal(s.source));
    var inclusion := MakeAnd(ContainerConditions(s.inclusion));
    var exclusion := MakeAnd(set c | c in ContainerConditions(s.exclusion) :: MakeNot(c));
    InclusionMeans(s.inclusion, row);
    ExclusionMeans(s.exclusion, row);
    assert NonNullable(SourceId);
    assert Eval(source, row) <==> row[SourceId] == s.source;
    ThreeMean(source, inclusion, exclusion, row);
    assert SubsourceCondition(s).value == MakeAnd({source, inclusion, exclusion});
  }

  lemma WithoutHiddenMeans(c: Cond, row: Row)
    requires Built(c) && LegalRow(row)
    ensures Built(WithoutHidden(c))
    ensures Eval(WithoutHidden(c), row) <==> Eval(c, row) && !IsHidden(row)
  {
    var internal, ignored := RecItem(Restriction, Equal(INTERNAL)), RecItem(Ignored, IsTrue);
    assert NonNullable(Restriction);
    assert Eval(internal, row) <==> row[Restriction] == INTERNAL;
    assert Eval(ignored, row) <==> Ignored in row && row[Ignored] != 0;
    MakeNotNegates(internal, row);
    MakeNotNegates(ignored, row);
    ThreeMean(c, MakeNot(internal), MakeNot(ignored), row);
  }

  /** The condition of a subsource is true of exactly the rows the rule selects. */
  lemma AccessConditionMeans(s: Subsource, fullAccess: bool, row: Row)
    requires LegalSubsource(s) && LegalRow(row) && AccessCondition(s, fullAccess).Ok?
    ensures Built(AccessCondition(s, fullAccess).value)
    ensures Eval(AccessCondition(s, fullAccess).value, row) <==> Selects(s, fullAccess, row)
  {
    SubsourceConditionMeans(s, row);
    WithoutHiddenMeans(SubsourceCondition(s).value, row);
  }

  // ---------------------------------------------------------------- conditions of an access zone

  /** Subsources given directly and through subsource groups. */
  datatype Channel = Channel(subsources: seq<Subsource>, groups: seq<seq<Subsource>>)

  type Channels = map<string, Channel>

  /** The channels of the organization itself (with `-ex` variants) and those of its groups. */
  datatype Org = Org(channels: Channels, orgGroups: seq<Channels>, fullAccess: bool)

  /** The channel of that name gives the subsource, directly or in one of its subsource groups. */
  ghost predicate Gives(cs: Channels, name: string, s: Subsource) {
    && name in cs
    && (s in cs[name].subsources || exists i :: 0 <= i < |cs[name].groups| && s in cs[name].groups[i])
  }

  /** The rule: the zone's channel of the organization itself, or of one of its groups, gives the subsource,
      and the organization's own channel of exclusions for the zone does not. */
  ghost predicate MayUse(o: Org, zone: string, s: Subsource) {
    && (Gives(o.channels, zone, s) || exists i :: 0 <= i < |o.orgGroups| && Gives(o.orgGroups[i], zone, s))
    && !Gives(o.channels, zone + "-ex", s)
  }

  function ChannelSubsources(c: Channel): set<Subsource> {
    (set s | s in c.subsources) + (set i, s | 0 <= i < |c.groups| && s in c.groups[i] :: s)
  }

  function OfChannel(cs: Channels, name: string): set<Subsource> {
    if name in cs then ChannelSubsources(cs[name]) else {}
  }

  /** `_get_org_subsource_az_tuples()`, of one organization and zone. */
  function Granted(o: Org, zone: string): set<Subsource> {
    OfChannel(o.channels, zone) + (set i, s | 0 <= i < |o.orgGroups| && s in OfChannel(o.orgGroups[i], zone) :: s)
    - OfChannel(o.channels, zone + "-ex")
  }

  lemma OfChannelExactly(cs: Channels, name: string, s: Subsource)
    ensures s in OfChannel(cs, name) <==> Gives(cs, name, s)
  {
  }

  /** The included ones less the excluded ones are exactly those the rule allows. */
  lemma GrantedExactly(o: Org, zone: string, s: Subsource)
    ensures s in Granted(o, zone) <==> MayUse(o, zone, s)
  {
    OfChannelExactly(o.channels, zone, s);
    OfChannelExactly(o.channels, zone + "-ex", s);
    forall i | 0 <= i < |o.orgGroups|
      ensures s in OfChannel(o.orgGroups[i], zone) <==> Gives(o.orgGroups[i], zone, s)
    {
      OfChannelExactly(o.orgGroups[i], zone, s);
    }
  }

  lemma AllGranted(o: Org, zone: string)
    ensures forall s :: s in Granted(o, zone) <==> MayUse(o, zone, s)
  {
    forall s
      ensures s in Granted(o, zone) <==> MayUse(o, zone, s)
    {
      GrantedExactly(o, zone, s);
    }
  }

  ghost predicate LegalOrg(o: Org, zone: string) {
    forall s | s in Granted(o, zone) :: LegalSubsource(s)
  }

  /** Some subsource that the organization may use in the zone selects the row. */
  ghost predicate MaySee(o: Org, zone: string, row: Row)
    requires LegalRow(row)
  {
    exists s :: MayUse(o, zone, s) && LegalSubsource(s) && Selects(s, o.fullAccess, row)
  }

  function ZoneConds(o: Org, zone: string): set<Cond>
    requires LegalOrg(o, zone)
    requires forall s | s in Granted(o, zone) :: AccessCondition(s, o.fullAccess).Ok?
  {
    set s | s in Granted(o, zone) :: AccessCondition(s, o.fullAccess).value
  }

  predicate SomeMalformed(o: Org, zone: string)
    requires LegalOrg(o, zone)
  {
    exists s | s in Granted(o, zone) :: AccessCondition(s, o.fullAccess).Err?
  }

  lemma ZoneCondsMean(o: Org, zone: string, row: Row)
    requires LegalOrg(o, zone) && !SomeMalformed(o, zone) && LegalRow(row)
    ensures Built(MakeOr(ZoneConds(o, zone)))
    ensures Eval(MakeOr(ZoneConds(o, zone)), row)
            <==> exists s :: s in Granted(o, zone) && Selects(s, o.fullAccess, row)
  {
    var conds := ZoneConds(o, zone);
    forall s | s in Granted(o, zone)
      ensures var c := AccessCondition(s, o.fullAccess).value;
              c in conds && Built(c) && (Eval(c, row) <==> Selects(s, o.fullAccess, row))
    {
      AccessConditionMeans(s, o.fullAccess, row);
    }
    MakeMultiMeans(false, conds, row);
    MakeMultiBuilt(false, conds);
  }

  lemma ZoneCondsBuilt(o: Org, zone: string)
    requires LegalOrg(o, zone) && !SomeMalformed(o, zone)
    ensures Built(MakeOr(ZoneConds(o, zone)))
  {
    var row := RowWithNull(Asn);
    assert NonNullable(Ip) && row[Ip] in row.Values;
    ZoneCondsMean(o, zone, row);
  }

  /** From the directory to the condition handed to the database: `None` when nothing is granted. */
  ghost function ZoneSql(o: Org, zone: string, skipOptimizing: bool): Result<Option<Sql>, AssertionError>
    requires LegalOrg(o, zone)
  {
    if SomeMalformed(o, zone) then Err(OnlyEmptyValueLists)
    else if Granted(o, zone) == {} then Ok(None)
    else
      ZoneCondsBuilt(o, zone);
      Ok(Some(Convert(Harden(Optimize(MakeOr(ZoneConds(o, zone)), skipOptimizing)))))
  }

  /** The database selects a row exactly when some subsource that the organization may use in the zone
      selects it: through collecting, building, optimizing, hardening and compiling, nothing is lost or added. */
  lemma ZoneSqlSelectsExactly(o: Org, zone: string, skipOptimizing: bool, row: Row)
    requires LegalOrg(o, zone) && LegalRow(row) && !SomeMalformed(o, zone)
    ensures var sql := ZoneSql(o, zone, skipOptimizing).value;
            (sql.Some? && SqlEval(sql.value, row) == True) <==> MaySee(o, zone, row)
  {
    AllGranted(o, zone);
    if Granted(o, zone) != {} {
      var c := MakeOr(ZoneConds(o, zone));
      ZoneCondsMean(o, zone, row);
      OptimizeMeans(c, skipOptimizing, row);
      HardenedIsExact(Optimize(c, skipOptimizing), row);
    }
  }

  /** No internal and no ignored event ever reaches an organization without full access. */
  lemma NothingInternalWithoutFullAccess(o: Org, zone: string, skipOptimizing: bool, row: Row)
    requires LegalOrg(o, zone) && LegalRow(row) && !o.fullAccess
    requires IsHidden(row)
    ensures var sql := ZoneSql(o, zone, skipOptimizing);
            sql.Ok? && sql.value.Some? ==> SqlEval(sql.value.value, row) != True
  {
    if ZoneSql(o, zone, skipOptimizing).Ok? {
      ZoneSqlSelectsExactly(o, zone, skipOptimizing, row);
    }
  }

  /** A row that only excluded subsources select is never selected. */
  lemma ExcludedSelectNothing(o: Org, zone: string, skipOptimizing: bool, row: Row)
    requires LegalOrg(o, zone) && LegalRow(row) && !SomeMalformed(o, zone)
    requires forall s | LegalSubsource(s) && Selects(s, o.fullAccess, row) :: Gives(o.channels, zone + "-ex", s)
    ensures var sql := ZoneSql(o, zone, skipOptimizing).value; sql.None? || SqlEval(sql.value, row) != True
  {
    ZoneSqlSelectsExactly(o, zone, skipOptimizing, row);
  }

  /** Preparing the condition fails exactly when a usable subsource has a container that names criteria
      but gives no value for any of them. */
  lemma FailsExactlyOnEmptyLists(o: Org, zone: string, skipOptimizing: bool)
    requires LegalOrg(o, zone)
    ensures ZoneSql(o, zone, skipOptimizing).Err?
            <==> exists s, c :: MayUse(o, zone, s) && (c in s.inclusion || c in s.exclusion)
                                && NamesCriteria(c) && forall a | a in c && IsCriterion(a) :: IsEmpty(a)
  {
    AllGranted(o, zone);
    forall s | s in Granted(o, zone)
      ensures AccessCondition(s, o.fullAccess).Err?
              <==> exists c :: (c in s.inclusion || c in s.exclusion)
                               && NamesCriteria(c) && forall a | a in c && IsCriterion(a) :: IsEmpty(a)
    {
      MalformedMeans(s.inclusion);
      MalformedMeans(s.exclusion);
    }
  }

  lemma MalformedMeans(cs: seq<Container>)
    requires LegalContainers(cs)
    ensures Malformed(cs)
            <==> exists c :: c in cs && NamesCriteria(c) && forall a | a in c && IsCriterion(a) :: IsEmpty(a)
  {
    forall i | 0 <= i < |cs|
      ensures ContainerConds(cs, i) == {} <==> forall a | a in cs[i] && IsCriterion(a) :: IsEmpty(a)
    {
      NoConditions(cs, i);
    }
    forall i | 0 <= i < |cs|
      ensures HasCriteria(cs[i]) <==> NamesCriteria(cs[i])
    {
      HasCriteriaExactly(cs[i]);
    }
  }

  lemma NoConditions(cs: seq<Container>, i: nat)
    requires LegalContainers(cs) && i < |cs|
    ensures ContainerConds(cs, i) == {} <==> forall a | a in cs[i] && IsCriterion(a) :: IsEmpty(a)
  {
    forall j | 0 <= j < |cs[i]|
      ensures CritConditions(cs[i][j]) == {} <==> IsEmpty(cs[i][j])
    {
      var a := cs[i][j];
      if a.IpNetworks? && a.nets != [] {
        assert RecItem(Ip, Between(MinMaxIp(a.nets[0]).0, MinMaxIp(a.nets[0]).1)) in CritConditions(a);
      }
    }
    if a :| a in cs[i] && IsCriterion(a) && !IsEmpty(a) {
      var j :| 0 <= j < |cs[i]| && cs[i][j] == a;
      var c :| c in CritConditions(a);
      assert c in ContainerConds(cs, i);
    }
  }
}
