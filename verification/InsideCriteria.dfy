/** Which organizations an event concerns: IP ranges answered from a swept list of borders, and lookups
    by domain name suffix, autonomous system and country. */
module InsideCriteria {
  import opened Options
  import Net = IpNetworks

  const IP_LO_GUARD := -1
  const IP_HI_GUARD := 0x1_0000_0000

  type OrgId = string
  type Fqdn = seq<string>       // its labels
  type Endpoint = (OrgId, bool) // is it the lower one?

  datatype Criterion = Criterion(
    orgId: OrgId,
    ipMinMaxSeq: seq<(int, int)>,
    fqdns: seq<Fqdn>,
    asns: seq<int>,
    ccs: seq<string>)

  datatype Address = Address(asn: Option<int>, cc: Option<string>, ip: int)

  datatype Record = Record(fqdn: Option<Fqdn>, category: string, addresses: seq<Address>)

  /** A range within the address space, or the one empty range. */
  predicate LegalRange(r: (int, int)) {
    r == (1, 0) || 1 <= r.0 <= r.1 < IP_HI_GUARD
  }

  ghost predicate LegalCriteria(cs: seq<Criterion>) {
    && (forall i, j | 0 <= i < |cs| && 0 <= j < |cs[i].ipMinMaxSeq| :: LegalRange(cs[i].ipMinMaxSeq[j]))
    && (forall i, j | 0 <= i < j < |cs| :: cs[i].orgId != cs[j].orgId)
  }

  // ---------------------------------------------------------------- the plain meaning

  ghost predicate InRanges(c: Criterion, ip: int) {
    exists j :: 0 <= j < |c.ipMinMaxSeq| && c.ipMinMaxSeq[j].0 <= ip <= c.ipMinMaxSeq[j].1
  }

  /** The ranges made of an organization's networks are legal, and hold exactly the addresses with the prefix of
      some network, 0.0.0.0 excepted. */
  lemma RangesOfNetworks(c: Criterion, nets: seq<Net.Network>, ip: nat)
    requires |nets| == |c.ipMinMaxSeq|
    requires forall j | 0 <= j < |nets| :: nets[j].Valid() && c.ipMinMaxSeq[j] == Net.MinMaxIp(nets[j])
    ensures forall j | 0 <= j < |nets| :: LegalRange(c.ipMinMaxSeq[j])
    ensures InRanges(c, ip) <==> exists j :: 0 <= j < |nets| && Net.InNetwork(nets[j], ip)
  {
    forall j | 0 <= j < |nets|
      ensures LegalRange(c.ipMinMaxSeq[j])
      ensures c.ipMinMaxSeq[j].0 <= ip <= c.ipMinMaxSeq[j].1 <==> Net.InNetwork(nets[j], ip)
    {
      Net.RangeIsLegal(nets[j]);
      Net.RangeIsNetwork(nets[j], ip);
    }
  }

  ghost predicate MatchesFqdn(c: Criterion, fqdn: Fqdn) {
    exists i :: 0 <= i < |fqdn| && fqdn[i..] in c.fqdns
  }

  ghost predicate MatchesAddress(c: Criterion, a: Address) {
    || (a.asn.Some? && a.asn.value in c.asns)
    || (a.cc.Some? && a.cc.value in c.ccs)
    || InRanges(c, a.ip)
  }

  ghost predicate Concerns(c: Criterion, r: Record, fqdnOnly: bool) {
    || (r.fqdn.Some? && MatchesFqdn(c, r.fqdn.value))
    || (!fqdnOnly && exists i :: 0 <= i < |r.addresses| && MatchesAddress(c, r.addresses[i]))
  }

  // ---------------------------------------------------------------- ranges and their endpoints

  datatype Range = Range(org: OrgId, lo: int, hi: int)

  predicate Proper(r: Range) {
    1 <= r.lo <= r.hi < IP_HI_GUARD
  }

  /** How many of the ranges of an organization hold an address; start at it; end just before it. */
  function Active(rs: seq<Range>, o: OrgId, x: int): nat {
    if rs == [] then 0 else (if rs[0].org == o && rs[0].lo <= x <= rs[0].hi then 1 else 0) + Active(rs[1..], o, x)
  }

  function Starting(rs: seq<Range>, o: OrgId, x: int): nat {
    if rs == [] then 0 else (if rs[0].org == o && rs[0].lo == x then 1 else 0) + Starting(rs[1..], o, x)
  }

  function Ending(rs: seq<Range>, o: OrgId, x: int): nat {
    if rs == [] then 0 else (if rs[0].org == o && rs[0].hi + 1 == x then 1 else 0) + Ending(rs[1..], o, x)
  }

  ghost predicate AllProper(rs: seq<Range>) {
    forall i | 0 <= i < |rs| :: Proper(rs[i])
  }

  /** No range starts or ends between the two (the second excluded). */
  ghost predicate QuietBetween(rs: seq<Range>, k: int, x: int) {
    forall i | 0 <= i < |rs| :: !(k < rs[i].lo < x) && !(k < rs[i].hi + 1 < x)
  }

  lemma {:induction false} NextBorder(rs: seq<Range>, o: OrgId, k: int, x: int)
    requires AllProper(rs) && k < x && QuietBetween(rs, k, x)
    ensures Active(rs, o, x) + Ending(rs, o, x) == Active(rs, o, k) + Starting(rs, o, x)
    ensures Ending(rs, o, x) <= Active(rs, o, k)
  {
    if rs != [] {
      assert Proper(rs[0]);
      NextBorder(rs[1..], o, k, x);
    }
  }

  lemma {:induction false} SameBetweenBorders(rs: seq<Range>, o: OrgId, k: int, x: int)
    requires k <= x && QuietBetween(rs, k, x + 1)
    ensures Active(rs, o, x) == Active(rs, o, k)
  {
    if rs != [] {
      assert !(k < rs[0].lo < x + 1) && !(k < rs[0].hi + 1 < x + 1);
      SameBetweenBorders(rs[1..], o, k, x);
    }
  }

  ghost predicate SomeRange(rs: seq<Range>, o: OrgId, x: int) {
    exists i :: 0 <= i < |rs| && rs[i].org == o && rs[i].lo <= x <= rs[i].hi
  }

  lemma {:induction false} ActiveMeans(rs: seq<Range>, o: OrgId, x: int)
    ensures Active(rs, o, x) > 0 <==> SomeRange(rs, o, x)
  {
    if rs != [] {
      ActiveMeans(rs[1..], o, x);
      if Active(rs[1..], o, x) > 0 {
        var i :| 0 <= i < |rs| - 1 && rs[1..][i].org == o && rs[1..][i].lo <= x <= rs[1..][i].hi;
        assert rs[i + 1].org == o;
      }
    }
  }

  lemma {:induction false} NothingOutside(rs: seq<Range>, o: OrgId, x: int)
    requires AllProper(rs) && (x < 1 || x >= IP_HI_GUARD)
    ensures Active(rs, o, x) == 0
  {
    if rs != [] {
      assert Proper(rs[0]);
      NothingOutside(rs[1..], o, x);
    }
  }

  lemma {:induction false} CountsAppend(rs: seq<Range>, r: Range, o: OrgId, x: int)
    ensures Starting(rs + [r], o, x) == Starting(rs, o, x) + (if r.org == o && r.lo == x then 1 else 0)
    ensures Ending(rs + [r], o, x) == Ending(rs, o, x) + (if r.org == o && r.hi + 1 == x then 1 else 0)
  {
    if rs == [] {
      assert rs + [r] == [r];
      assert [r][1..] == [];
    } else {
      CountsAppend(rs[1..], r, o, x);
      assert (rs + [r])[1..] == rs[1..] + [r];
    }
  }

  /** The proper ranges of a criterion and of all criteria. */
  function RangesOf(o: OrgId, seqs: seq<(int, int)>): seq<Range> {
    if seqs == [] then []
    else
      var last := seqs[|seqs| - 1];
      RangesOf(o, seqs[..|seqs| - 1]) + if last == (1, 0) then [] else [Range(o, last.0, last.1)]
  }

  function AllRanges(cs: seq<Criterion>): seq<Range> {
    if cs == [] then []
    else
      var last := cs[|cs| - 1];
      AllRanges(cs[..|cs| - 1]) + RangesOf(last.orgId, last.ipMinMaxSeq)
  }

  // ---------------------------------------------------------------- the endpoints, border by border

  type Endpoints = map<int, seq<Endpoint>>

  ghost function Stored(es: Endpoints, x: int): multiset<Endpoint> {
    if x in es then multiset(es[x]) else multiset{}
  }

  /** What is stored at every border is what starts and ends there. */
  ghost predicate Describes(es: Endpoints, rs: seq<Range>) {
    && IP_LO_GUARD in es && IP_HI_GUARD in es
    && (forall x, o :: Stored(es, x)[(o, true)] == Starting(rs, o, x) && Stored(es, x)[(o, false)] == Ending(rs, o, x))
    && (forall i | 0 <= i < |rs| :: rs[i].lo in es && rs[i].hi + 1 in es)
    && (forall x | x in es :: IP_LO_GUARD <= x <= IP_HI_GUARD)
  }

  function Append(es: Endpoints, x: int, e: Endpoint): Endpoints {
    es[x := (if x in es then es[x] else []) + [e]]
  }

  lemma AppendStores(es: Endpoints, x: int, e: Endpoint, y: int)
    ensures Stored(Append(es, x, e), y) == Stored(es, y) + if x == y then multiset{e} else multiset{}
  {
  }

  /** The two endpoints of a range, the upper one made exclusive. */
  function WithRange(es: Endpoints, r: Range): Endpoints {
    Append(Append(es, r.lo, (r.org, true)), r.hi + 1, (r.org, false))
  }

  lemma AddingEndpoints(es: Endpoints, rs: seq<Range>, r: Range, x: int, o: OrgId)
    requires Stored(es, x)[(o, true)] == Starting(rs, o, x) && Stored(es, x)[(o, false)] == Ending(rs, o, x)
    ensures Stored(WithRange(es, r), x)[(o, true)] == Starting(rs + [r], o, x)
    ensures Stored(WithRange(es, r), x)[(o, false)] == Ending(rs + [r], o, x)
  {
    CountsAppend(rs, r, o, x);
    AppendStores(es, r.lo, (r.org, true), x);
    AppendStores(Append(es, r.lo, (r.org, true)), r.hi + 1, (r.org, false), x);
  }

  lemma AddingRange(es: Endpoints, rs: seq<Range>, r: Range)
    requires Describes(es, rs) && AllProper(rs) && Proper(r)
    ensures Describes(WithRange(es, r), rs + [r]) && AllProper(rs + [r])
  {
    forall x, o
      ensures Stored(WithRange(es, r), x)[(o, true)] == Starting(rs + [r], o, x)
      ensures Stored(WithRange(es, r), x)[(o, false)] == Ending(rs + [r], o, x)
    {
      AddingEndpoints(es, rs, r, x, o);
    }
  }

  /** The IP ranges of one criterion. */
  method AddRanges(es: Endpoints, cri: Criterion, ghost before: seq<Range>) returns (es': Endpoints)
    requires Describes(es, before) && AllProper(before)
    requires forall j | 0 <= j < |cri.ipMinMaxSeq| :: LegalRange(cri.ipMinMaxSeq[j])
    ensures var rs := before + RangesOf(cri.orgId, cri.ipMinMaxSeq); Describes(es', rs) && AllProper(rs)
  {
    es' := es;
    ghost var rs := before;
    for j := 0 to |cri.ipMinMaxSeq|
      invariant rs == before + RangesOf(cri.orgId, cri.ipMinMaxSeq[..j])
      invariant Describes(es', rs) && AllProper(rs)
    {
      var (minIp, maxIp) := cri.ipMinMaxSeq[j];
      RangesOfNext(cri.orgId, cri.ipMinMaxSeq, j);
      if (minIp, maxIp) == (1, 0) {
        continue;
      }
      var r := Range(cri.orgId, minIp, maxIp);
      AddingRange(es', rs, r);
      es' := WithRange(es', r);
      rs := rs + [r];
    }
    assert cri.ipMinMaxSeq[..|cri.ipMinMaxSeq|] == cri.ipMinMaxSeq;
  }

  lemma RangesOfNext(o: OrgId, s: seq<(int, int)>, j: nat)
    requires j < |s|
    ensures RangesOf(o, s[..j + 1]) == RangesOf(o, s[..j]) + if s[j] == (1, 0) then [] else [Range(o, s[j].0, s[j].1)]
  {
    assert s[..j + 1][..j] == s[..j] && s[..j + 1][j] == s[j];
  }

  // ---------------------------------------------------------------- the sweep

  type Counter = map<OrgId, int>

  function Count(c: Counter, o: OrgId): int {
    if o in c then c[o] else 0
  }

  /** `frozenset(counter.elements())` */
  function CurrentIdSet(c: Counter): set<OrgId> {
    set o | o in c && c[o] > 0
  }

  ghost predicate Ascending(s: seq<int>) {
    forall i, j | 0 <= i < j < |s| :: s[i] < s[j]
  }

  lemma InOrder(s: seq<int>, i: nat, j: nat)
    requires Ascending(s) && i < |s| && j < |s|
    ensures i < j <==> s[i] < s[j]
  {
  }

  /** The keys in order. */
  method SortedKeys(es: Endpoints) returns (keys: seq<int>)
    ensures Ascending(keys) && (forall x :: x in keys <==> x in es)
  {
    var left := es.Keys;
    keys := [];
    while left != {}
      invariant Ascending(keys) && left <= es.Keys
      invariant forall x :: x in es <==> x in keys || x in left
      invariant forall i, x | 0 <= i < |keys| && x in left :: keys[i] < x
      decreases |left|
    {
      var least := Least(left);
      keys := keys + [least];
      left := left - {least};
    }
  }

  method Choose<T(==)>(s: set<T>) returns (x: T)
    requires s != {}
    ensures x in s
  {
    x :| x in s;
  }

  method Least(s: set<int>) returns (least: int)
    requires s != {}
    ensures least in s && forall y | y in s :: least <= y
  {
    least := Choose(s);
    var left := s - {least};
    while left != {}
      invariant left <= s && least in s
      invariant forall y | y in s :: y in left || least <= y
      decreases |left|
    {
      var x := Choose(left);
      if x < least {
        least := x;
      }
      left := left - {x};
    }
  }

  /** The counter holds the number of ranges over an address. */
  ghost predicate Counts(c: Counter, rs: seq<Range>, x: int) {
    forall o :: Count(c, o) == Active(rs, o, x)
  }

  /** The list holds what starts and ends at an address. */
  ghost predicate Lists(endpoints: seq<Endpoint>, rs: seq<Range>, x: int) {
    forall o :: multiset(endpoints)[(o, true)] == Starting(rs, o, x)
                && multiset(endpoints)[(o, false)] == Ending(rs, o, x)
  }

  function Balance(es: seq<Endpoint>, o: OrgId): int {
    multiset(es)[(o, true)] as int - multiset(es)[(o, false)] as int
  }

  lemma BalanceNext(es: seq<Endpoint>, i: nat, o: OrgId)
    requires i < |es|
    ensures Balance(es[..i + 1], o) == Balance(es[..i], o) + if es[i].0 != o then 0 else if es[i].1 then 1 else -1
  {
    assert es[..i + 1] == es[..i] + [es[i]];
  }

  lemma BalanceAll(es: seq<Endpoint>, rs: seq<Range>, o: OrgId, k: int, x: int)
    requires AllProper(rs) && k < x && QuietBetween(rs, k, x) && Lists(es, rs, x)
    ensures Active(rs, o, k) + Balance(es[..|es|], o) == Active(rs, o, x)
  {
    NextBorder(rs, o, k, x);
    assert es[..|es|] == es;
  }

  /** The counts after one border, from those before it: no count ever falls below zero. */
  method CountEndpoints(counter: Counter, endpoints: seq<Endpoint>, ghost rs: seq<Range>, ghost k: int, ghost x: int)
    returns (counter': Counter)
    requires AllProper(rs) && k < x && QuietBetween(rs, k, x)
    requires Counts(counter, rs, k) && Lists(endpoints, rs, x)
    ensures Counts(counter', rs, x)
  {
    counter' := counter;
    for i := 0 to |endpoints|
      invariant forall o :: Count(counter', o) == Active(rs, o, k) + Balance(endpoints[..i], o)
      invariant forall o :: Count(counter', o) >= 0
    {
      var (orgId, isLower) := endpoints[i];
      ghost var before := counter';
      if isLower {
        counter' := counter'[orgId := Count(counter', orgId) + 1];
      } else {
        ClosingIsOpen(endpoints, i, rs, k, x);
        counter' := counter'[orgId := Count(counter', orgId) - 1];
      }
      forall o
        ensures Count(counter', o) == Active(rs, o, k) + Balance(endpoints[..i + 1], o) && Count(counter', o) >= 0
      {
        BalanceNext(endpoints, i, o);
        assert Count(before, o) >= 0;
      }
    }
    forall o
      ensures Count(counter', o) == Active(rs, o, x)
    {
      BalanceAll(endpoints, rs, o, k, x);
    }
  }

  /** A range that ends at a border was open before it. */
  lemma ClosingIsOpen(endpoints: seq<Endpoint>, i: nat, rs: seq<Range>, k: int, x: int)
    requires AllProper(rs) && k < x && QuietBetween(rs, k, x) && i < |endpoints| && !endpoints[i].1
    requires Lists(endpoints, rs, x)
    ensures Active(rs, endpoints[i].0, k) + Balance(endpoints[..i], endpoints[i].0) >= 1
  {
    NextBorder(rs, endpoints[i].0, k, x);
    assert endpoints == endpoints[..i] + [endpoints[i]] + endpoints[i + 1..];
  }

  /** Borders in order, and beside each the organizations with a range over it. */
  ghost predicate Swept(borderIps: seq<int>, idSets: seq<set<OrgId>>, rs: seq<Range>) {
    && |idSets| == |borderIps| > 1 && Ascending(borderIps)
    && borderIps[0] == IP_LO_GUARD && borderIps[|borderIps| - 1] == IP_HI_GUARD
    && (forall i | 0 <= i < |rs| :: rs[i].lo in borderIps && rs[i].hi + 1 in borderIps)
    && (forall n | 0 <= n < |idSets| :: Over(idSets[n], rs, borderIps[n]))
  }

  /** The organizations with a range over an address. */
  ghost predicate Over(ids: set<OrgId>, rs: seq<Range>, x: int) {
    forall o :: o in ids <==> Active(rs, o, x) > 0
  }

  lemma QuietAfter(keys: seq<int>, n: nat, rs: seq<Range>, x: int)
    requires Ascending(keys) && n < |keys| && (n + 1 < |keys| ==> x <= keys[n + 1])
    requires forall i | 0 <= i < |rs| :: rs[i].lo in keys && rs[i].hi + 1 in keys
    ensures QuietBetween(rs, keys[n], x)
  {
    forall y | y in keys
      ensures !(keys[n] < y < x)
    {
      var i :| 0 <= i < |keys| && keys[i] == y;
      if keys[n] < y {
        InOrder(keys, i, n);
        assert keys[n + 1] <= y;
      }
    }
  }

  /** `_get_border_ips_and_corresponding_id_sets()` */
  method Sweep(es: Endpoints, ghost rs: seq<Range>) returns (borderIps: seq<int>, idSets: seq<set<OrgId>>)
    requires Describes(es, rs) && AllProper(rs)
    ensures Swept(borderIps, idSets, rs)
    ensures idSets[0] == {} && idSets[|idSets| - 1] == {}
  {
    var keys := SortedKeys(es);
    GuardsAreEnds(keys, es, rs);
    borderIps, idSets := [], [];
    var counter: Counter := map[];
    ghost var k := IP_LO_GUARD - 1;
    NoCounts(rs);
    for n := 0 to |keys|
      invariant borderIps == keys[..n] && |idSets| == n
      invariant k == if n == 0 then IP_LO_GUARD - 1 else keys[n - 1]
      invariant Counts(counter, rs, k)
      invariant forall m | 0 <= m < n :: Over(idSets[m], rs, keys[m])
    {
      NextKey(keys, es, rs, n);
      counter := CountEndpoints(counter, es[keys[n]], rs, k, keys[n]);
      k := keys[n];
      borderIps := borderIps + [keys[n]];
      idSets := idSets + [CurrentIdSet(counter)];
    }
    assert borderIps == keys;
    assert Over(idSets[0], rs, IP_LO_GUARD) && Over(idSets[|idSets| - 1], rs, IP_HI_GUARD);
    forall o
      ensures Active(rs, o, IP_LO_GUARD) == 0 && Active(rs, o, IP_HI_GUARD) == 0
    {
      NothingOutside(rs, o, IP_LO_GUARD);
      NothingOutside(rs, o, IP_HI_GUARD);
    }
  }

  lemma NoCounts(rs: seq<Range>)
    requires AllProper(rs)
    ensures Counts(map[], rs, IP_LO_GUARD - 1)
  {
    var x := IP_LO_GUARD - 1;
    forall o
      ensures Active(rs, o, x) == 0
    {
      NothingOutside(rs, o, x);
    }
  }

  lemma NextKey(keys: seq<int>, es: Endpoints, rs: seq<Range>, n: nat)
    requires Describes(es, rs) && AllProper(rs) && Ascending(keys) && n < |keys|
    requires forall x :: x in keys <==> x in es
    ensures var k := if n == 0 then IP_LO_GUARD - 1 else keys[n - 1];
            k < keys[n] && QuietBetween(rs, k, keys[n]) && keys[n] in es && Lists(es[keys[n]], rs, keys[n])
  {
    var x := keys[n];
    assert x in es;
    forall o
      ensures multiset(es[x])[(o, true)] == Starting(rs, o, x) && multiset(es[x])[(o, false)] == Ending(rs, o, x)
    {
      assert Stored(es, x)[(o, true)] == Starting(rs, o, x);
    }
    if n == 0 {
      GuardsAreEnds(keys, es, rs);
      assert forall i | 0 <= i < |rs| :: Proper(rs[i]);
    } else {
      QuietAfter(keys, n - 1, rs, x);
    }
  }

  lemma GuardsAreEnds(keys: seq<int>, es: Endpoints, rs: seq<Range>)
    requires Describes(es, rs) && Ascending(keys) && forall x :: x in keys <==> x in es
    ensures |keys| > 1 && keys[0] == IP_LO_GUARD && keys[|keys| - 1] == IP_HI_GUARD
  {
    var i :| 0 <= i < |keys| && keys[i] == IP_LO_GUARD;
    var j :| 0 <= j < |keys| && keys[j] == IP_HI_GUARD;
    assert keys[0] in es && keys[|keys| - 1] in es;
    InOrder(keys, 0, i);
    InOrder(keys, j, |keys| - 1);
  }

  // ---------------------------------------------------------------- the lookup

  /** `bisect_right()` on an ascending list. */
  function BisectRight(s: seq<int>, x: int): (n: nat)
    ensures n <= |s|
    ensures forall i | 0 <= i < n :: s[i] <= x
    ensures n < |s| ==> s[n] > x
  {
    if s == [] || s[0] > x then 0 else 1 + BisectRight(s[1..], x)
  }

  /** The lookup is always in bounds, also for the code's own check of its neighbours, and finds exactly
      the organizations with a range over the address. */
  lemma LookupIsExact(borderIps: seq<int>, idSets: seq<set<OrgId>>, rs: seq<Range>, ip: int)
    requires Swept(borderIps, idSets, rs) && AllProper(rs) && 0 <= ip < IP_HI_GUARD
    ensures var index := BisectRight(borderIps, ip) - 1;
            && 0 <= index < |borderIps| - 1
            && borderIps[index] <= ip < borderIps[index + 1]
            && (ip == borderIps[index] ==> index >= 1 && ip > borderIps[index - 1])
            && forall o :: o in idSets[index] <==> SomeRange(rs, o, ip)
  {
    var index := BisectRight(borderIps, ip) - 1;
    QuietAfter(borderIps, index, rs, ip + 1);
    assert Over(idSets[index], rs, borderIps[index]);
    forall o
      ensures o in idSets[index] <==> SomeRange(rs, o, ip)
    {
      SameBetweenBorders(rs, o, borderIps[index], ip);
      ActiveMeans(rs, o, ip);
    }
  }

  /** Ranges of all criteria, criterion by criterion. */
  lemma {:induction false} RangesOfMean(o: OrgId, s: seq<(int, int)>, x: int)
    ensures (exists i :: 0 <= i < |RangesOf(o, s)| && RangesOf(o, s)[i].lo <= x <= RangesOf(o, s)[i].hi)
            <==> (exists j :: 0 <= j < |s| && s[j].0 <= x <= s[j].1)
    ensures forall i | 0 <= i < |RangesOf(o, s)| :: RangesOf(o, s)[i].org == o
  {
    if s != [] {
      var n := |s| - 1;
      RangesOfMean(o, s[..n], x);
      var before := RangesOf(o, s[..n]);
      assert RangesOf(o, s) == before + if s[n] == (1, 0) then [] else [Range(o, s[n].0, s[n].1)];
      if i :| 0 <= i < |before| && before[i].lo <= x <= before[i].hi {
        assert RangesOf(o, s)[i] == before[i];
        var j :| 0 <= j < n && s[..n][j].0 <= x <= s[..n][j].1;
        assert s[j] == s[..n][j];
      } else if s[n].0 <= x <= s[n].1 {
        assert RangesOf(o, s)[|before|] == Range(o, s[n].0, s[n].1);
      } else {
        assert forall j | 0 <= j < n :: s[j] == s[..n][j];
      }
    }
  }

  lemma SomeRangeAppend(a: seq<Range>, b: seq<Range>, o: OrgId, x: int)
    ensures SomeRange(a + b, o, x) <==> SomeRange(a, o, x) || SomeRange(b, o, x)
  {
    if i :| 0 <= i < |a| && a[i].org == o && a[i].lo <= x <= a[i].hi {
      assert (a + b)[i] == a[i];
    }
    if i :| 0 <= i < |b| && b[i].org == o && b[i].lo <= x <= b[i].hi {
      assert (a + b)[|a| + i] == b[i];
    }
  }

  lemma {:induction false} AllRangesMean(cs: seq<Criterion>, o: OrgId, x: int)
    ensures SomeRange(AllRanges(cs), o, x) <==> exists i :: 0 <= i < |cs| && cs[i].orgId == o && InRanges(cs[i], x)
  {
    if cs != [] {
      var n := |cs| - 1;
      var c := cs[n];
      AllRangesMean(cs[..n], o, x);
      RangesOfMean(c.orgId, c.ipMinMaxSeq, x);
      SomeRangeAppend(AllRanges(cs[..n]), RangesOf(c.orgId, c.ipMinMaxSeq), o, x);
      assert SomeRange(RangesOf(c.orgId, c.ipMinMaxSeq), o, x) <==> c.orgId == o && InRanges(c, x);
      assert forall i | 0 <= i < n :: cs[..n][i] == cs[i];
      if i :| 0 <= i < |cs[..n]| && cs[..n][i].orgId == o && InRanges(cs[..n][i], x) {
        assert cs[i].orgId == o && InRanges(cs[i], x);
      }
    }
  }

  // ---------------------------------------------------------------- the other criteria

  type Mapping<K(==)> = map<K, seq<OrgId>>

  function Ids<K(==)>(m: Mapping<K>, k: K): seq<OrgId> {
    if k in m then m[k] else []
  }

  /** The mapping answers which organizations name a key. */
  ghost predicate Indexes<K(!new)>(m: Mapping<K>, cs: seq<Criterion>, keysOf: Criterion -> seq<K>) {
    forall k, o :: o in Ids(m, k) <==> Names(cs, o, k, keysOf)
  }

  ghost predicate Names<K>(cs: seq<Criterion>, o: OrgId, k: K, keysOf: Criterion -> seq<K>) {
    exists i :: 0 <= i < |cs| && cs[i].orgId == o && k in keysOf(cs[i])
  }

  method AddKeys<K(==, !new)>(m: Mapping<K>, o: OrgId, keys: seq<K>) returns (m': Mapping<K>)
    ensures forall k, p :: p in Ids(m', k) <==> p in Ids(m, k) || (p == o && k in keys)
  {
    m' := m;
    for j := 0 to |keys|
      invariant forall k, p :: p in Ids(m', k) <==> p in Ids(m, k) || (p == o && k in keys[..j])
    {
      m' := m'[keys[j] := Ids(m', keys[j]) + [o]];
    }
  }

  lemma IndexesOneMore<K(!new)>(m: Mapping<K>, m': Mapping<K>, cs: seq<Criterion>, n: nat, keysOf: Criterion -> seq<K>)
    requires n < |cs| && Indexes(m, cs[..n], keysOf)
    requires forall k, p :: p in Ids(m', k) <==> p in Ids(m, k) || (p == cs[n].orgId && k in keysOf(cs[n]))
    ensures Indexes(m', cs[..n + 1], keysOf)
  {
    forall k, o
      ensures Names(cs[..n + 1], o, k, keysOf)
              <==> Names(cs[..n], o, k, keysOf) || (o == cs[n].orgId && k in keysOf(cs[n]))
    {
      assert forall i | 0 <= i < n :: cs[..n + 1][i] == cs[..n][i];
      assert cs[..n + 1][n] == cs[n];
    }
  }

  function FqdnsOf(c: Criterion): seq<Fqdn> { c.fqdns }

  function AsnsOf(c: Criterion): seq<int> { c.asns }

  function CcsOf(c: Criterion): seq<string> { c.ccs }

  // ---------------------------------------------------------------- the resolver

  lemma LocatedParts(cs: seq<Criterion>, o: OrgId, a: Address)
    ensures (exists i :: 0 <= i < |cs| && cs[i].orgId == o && MatchesAddress(cs[i], a))
            <==> || (a.asn.Some? && Names(cs, o, a.asn.value, AsnsOf))
                 || (a.cc.Some? && Names(cs, o, a.cc.value, CcsOf))
                 || SomeRange(AllRanges(cs), o, a.ip)
  {
    AllRangesMean(cs, o, a.ip);
  }

  class InsideCriteriaResolver {
    var fqdnSuffixToIds: Mapping<Fqdn>
    var asnToIds: Mapping<int>
    var ccToIds: Mapping<string>
    var borderIps: seq<int>
    var idSets: seq<set<OrgId>>
    ghost var criteria: seq<Criterion>

    ghost predicate Valid()
      reads this
    {
      && Swept(borderIps, idSets, AllRanges(criteria)) && AllProper(AllRanges(criteria))
      && Indexes(fqdnSuffixToIds, criteria, FqdnsOf)
      && Indexes(asnToIds, criteria, AsnsOf)
      && Indexes(ccToIds, criteria, CcsOf)
    }

    constructor (insideCriteria: seq<Criterion>)
      requires LegalCriteria(insideCriteria)
      ensures Valid() && criteria == insideCriteria
    {
      var es: Endpoints := map[IP_LO_GUARD := [], IP_HI_GUARD := []];
      var fqdns: Mapping<Fqdn>, asns: Mapping<int>, ccs: Mapping<string> := map[], map[], map[];
      for n := 0 to |insideCriteria|
        invariant Describes(es, AllRanges(insideCriteria[..n])) && AllProper(AllRanges(insideCriteria[..n]))
        invariant Indexes(fqdns, insideCriteria[..n], FqdnsOf)
        invariant Indexes(asns, insideCriteria[..n], AsnsOf)
        invariant Indexes(ccs, insideCriteria[..n], CcsOf)
      {
        var cri := insideCriteria[n];
        es := AddCriterionRanges(es, insideCriteria, n);
        var fqdns' := AddKeys(fqdns, cri.orgId, cri.fqdns);
        var asns' := AddKeys(asns, cri.orgId, cri.asns);
        var ccs' := AddKeys(ccs, cri.orgId, cri.ccs);
        IndexesOneMore(fqdns, fqdns', insideCriteria, n, FqdnsOf);
        IndexesOneMore(asns, asns', insideCriteria, n, AsnsOf);
        IndexesOneMore(ccs, ccs', insideCriteria, n, CcsOf);
        fqdns, asns, ccs := fqdns', asns', ccs';
      }
      assert insideCriteria[..|insideCriteria|] == insideCriteria;
      var borders, sets := Sweep(es, AllRanges(insideCriteria));
      fqdnSuffixToIds, asnToIds, ccToIds := fqdns, asns, ccs;
      borderIps, idSets := borders, sets;
      criteria := insideCriteria;
    }

    /** The organizations of `get_client_org_ids_and_urls_matched()`, URLs aside. */
    method GetClientOrgIds(r: Record, fqdnOnlyCategories: set<string>) returns (ids: set<OrgId>)
      requires Valid()
      requires forall i | 0 <= i < |r.addresses| :: 0 <= r.addresses[i].ip < IP_HI_GUARD
      ensures forall o :: o in ids <==>
                exists i :: 0 <= i < |criteria| && criteria[i].orgId == o
                            && Concerns(criteria[i], r, r.category in fqdnOnlyCategories)
    {
      ids := {};
      if r.fqdn.Some? {
        ids := IdsForFqdn(r.fqdn.value);
      }
      if r.category !in fqdnOnlyCategories {
        ghost var byFqdn := ids;
        for n := 0 to |r.addresses|
          invariant forall o :: o in ids <==> o in byFqdn || exists j :: 0 <= j < n && Located(o, r.addresses[j])
        {
          var found := IdsForAddress(r.addresses[n]);
          ids := ids + found;
        }
      }
    }

    ghost predicate Named(o: OrgId, fqdn: Fqdn)
      reads this
    {
      exists i :: 0 <= i < |criteria| && criteria[i].orgId == o && MatchesFqdn(criteria[i], fqdn)
    }

    ghost predicate Located(o: OrgId, a: Address)
      reads this
    {
      exists i :: 0 <= i < |criteria| && criteria[i].orgId == o && MatchesAddress(criteria[i], a)
    }

    method IdsForFqdn(fqdn: Fqdn) returns (ids: set<OrgId>)
      requires Valid()
      ensures forall o :: o in ids <==> Named(o, fqdn)
    {
      ids := {};
      for i := 0 to |fqdn|
        invariant forall o :: o in ids <==> exists j :: 0 <= j < i && o in Ids(fqdnSuffixToIds, fqdn[j..])
      {
        ids := ids + set o | o in Ids(fqdnSuffixToIds, fqdn[i..]);
      }
    }

    method IdsForAddress(a: Address) returns (ids: set<OrgId>)
      requires Valid() && 0 <= a.ip < IP_HI_GUARD
      ensures forall o :: o in ids <==> Located(o, a)
    {
      ids := {};
      if a.asn.Some? {
        ids := ids + set o | o in Ids(asnToIds, a.asn.value);
      }
      if a.cc.Some? {
        ids := ids + set o | o in Ids(ccToIds, a.cc.value);
      }
      var byIp := IdsForIp(a.ip);
      ids := ids + byIp;
      forall o
        ensures o in ids <==> Located(o, a)
      {
        LocatedParts(criteria, o, a);
      }
    }

    /** The lookup in the swept borders. */
    method IdsForIp(ip: int) returns (ids: set<OrgId>)
      requires Valid() && 0 <= ip < IP_HI_GUARD
      ensures forall o :: o in ids <==> SomeRange(AllRanges(criteria), o, ip)
    {
      LookupIsExact(borderIps, idSets, AllRanges(criteria), ip);
      var index := BisectRight(borderIps, ip) - 1;
      ids := idSets[index];
    }
  }

  method AddCriterionRanges(es: Endpoints, criteria: seq<Criterion>, n: nat) returns (es': Endpoints)
    requires LegalCriteria(criteria) && n < |criteria|
    requires Describes(es, AllRanges(criteria[..n])) && AllProper(AllRanges(criteria[..n]))
    ensures Describes(es', AllRanges(criteria[..n + 1])) && AllProper(AllRanges(criteria[..n + 1]))
  {
    assert criteria[..n + 1][..n] == criteria[..n] && criteria[..n + 1][n] == criteria[n];
    es' := AddRanges(es, criteria[n], AllRanges(criteria[..n]));
  }
}
