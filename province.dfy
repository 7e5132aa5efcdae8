/**
 * ProvinceService: the per-country province lists, the cache that holds them, and the lookup of
 * a province by code, English name or Chinese name, ignoring spaces and letter case.
 */
module ProvinceService {
  import opened Wrappers
  import opened AsciiText

  /** ProvinceModel. A null alias list is written []. */
  datatype Province = Province(
    code: string,
    enName: string,
    cnName: string,
    localName: string,
    aliases: seq<string>)

  /** Why GetProvinceInfo found nothing: no list for the country, or no record matching the query. */
  datatype ProvinceError = NoProvinceData | ProvinceNotFound(query: string)

  /** The form CheckSameProvinceStr compares: double spaces collapsed, spaces removed, upper-cased. */
  function Canonical(s: string): string
  {
    ToUpper(RemoveSpaces(CollapseDoubleSpaces(s)))
  }

  /**
   * CheckSameProvinceStr. Two empty strings agree, an empty and a non-empty one never do, and two
   * non-empty strings agree exactly when they are equal once every U+0020 is removed and the
   * letters upper-cased. Null is written "".
   */
  function CheckSameProvinceStr(a: string, b: string): (r: bool)
    ensures a == [] && b == [] ==> r
    ensures (a == []) != (b == []) ==> !r
    ensures a != [] && b != [] ==> (r <==> ToUpper(RemoveSpaces(a)) == ToUpper(RemoveSpaces(b)))
  {
    RemoveSpacesAfterCollapse(a);
    RemoveSpacesAfterCollapse(b);
    if a == [] && b == [] then true
    else if a == [] || b == [] then false
    else if a == b then true
    else Canonical(a) == Canonical(b)
  }

  lemma SameProvinceReflexive(a: string)
    ensures CheckSameProvinceStr(a, a)
  {
  }

  lemma SameProvinceSymmetric(a: string, b: string)
    ensures CheckSameProvinceStr(a, b) == CheckSameProvinceStr(b, a)
  {
  }

  /**
   * The comparison sees a string only through its emptiness and its upper-cased, space-free form:
   * changing letter case or adding and removing spaces in a non-empty string changes nothing.
   */
  lemma SameProvinceIgnoresCaseAndSpaces(a: string, a': string, b: string)
    requires (a == []) == (a' == [])
    requires RemoveSpaces(ToUpper(a)) == RemoveSpaces(ToUpper(a'))
    ensures CheckSameProvinceStr(a, b) == CheckSameProvinceStr(a', b)
  {
    RemoveSpacesToUpper(a);
    RemoveSpacesToUpper(a');
  }

  /** Letter case never matters. */
  lemma SameProvinceIgnoresCase(a: string, b: string)
    ensures CheckSameProvinceStr(ToUpper(a), b) == CheckSameProvinceStr(a, b)
  {
    ToUpperIdempotent(a);
    SameProvinceIgnoresCaseAndSpaces(ToUpper(a), a, b);
  }

  /** A space inserted anywhere into a non-empty string never matters. */
  lemma SameProvinceIgnoresSpace(x: string, y: string, b: string)
    requires x + y != []
    ensures CheckSameProvinceStr(x + " " + y, b) == CheckSameProvinceStr(x + y, b)
  {
    RemoveSpacesAppend(x + " ", y);
    RemoveSpacesAppend(x, " ");
    RemoveSpacesAppend(x, y);
    assert RemoveSpaces(" ") == [];
    assert RemoveSpaces(x + " " + y) == RemoveSpaces(x + y);
    RemoveSpacesToUpper(x + " " + y);
    RemoveSpacesToUpper(x + y);
    SameProvinceIgnoresCaseAndSpaces(x + " " + y, x + y, b);
  }

  /** Only U+0020 is removed: a tab where the other string has a space makes them differ. */
  lemma {:induction false} TabIsNotASpace(x: string, y: string)
    ensures !CheckSameProvinceStr(x + "\t" + y, x + " " + y)
  {
    RemoveSpacesAppend(x + "\t", y);
    RemoveSpacesAppend(x, "\t");
    RemoveSpacesAppend(x + " ", y);
    RemoveSpacesAppend(x, " ");
    assert RemoveSpaces(" ") == [];
    assert RemoveSpaces("\t") == "\t";
  }

  /**
   * Two strings that hold no space up to position i, and differ at i even ignoring case, never
   * agree.
   */
  lemma DifferentCharNoMatch(a: string, b: string, i: nat)
    requires i < |a| && i < |b|
    requires forall m :: 0 <= m <= i ==> a[m] != ' ' && b[m] != ' '
    requires UpperChar(a[i]) != UpperChar(b[i])
    ensures !CheckSameProvinceStr(a, b)
  {
    var ra, rb := RemoveSpaces(a), RemoveSpaces(b);
    SpaceFreePrefix(a, i + 1);
    SpaceFreePrefix(b, i + 1);
    assert ra[i] == ra[..i + 1][i] == a[i];
    assert rb[i] == rb[..i + 1][i] == b[i];
    assert ToUpper(ra)[i] != ToUpper(rb)[i];
  }

  lemma SpaceFreePrefix(a: string, k: nat)
    requires k <= |a| && forall m :: 0 <= m < k ==> a[m] != ' '
    ensures |RemoveSpaces(a)| >= k && RemoveSpaces(a)[..k] == a[..k]
  {
    assert a == a[..k] + a[k..];
    RemoveSpacesAppend(a[..k], a[k..]);
    RemoveSpacesOfSpaceFree(a[..k]);
  }

  /** The predicate of the FirstOrDefault query: the code, the English name or the Chinese name agree. */
  predicate ProvinceMatches(query: string, p: Province)
  {
    CheckSameProvinceStr(query, p.code) || CheckSameProvinceStr(query, p.enName) ||
    CheckSameProvinceStr(query, p.cnName)
  }

  /** FirstOrDefault: the first record, in list order, that matches the query. */
  function FirstMatch(query: string, list: seq<Province>): (r: Option<Province>)
    ensures r.Some? ==> r.value in list && ProvinceMatches(query, r.value)
    ensures r.None? <==> forall p :: p in list ==> !ProvinceMatches(query, p)
  {
    if list == [] then None
    else if ProvinceMatches(query, list[0]) then Some(list[0])
    else
      assert forall p :: p in list ==> p == list[0] || p in list[1..];
      FirstMatch(query, list[1..])
  }

  /** The record found is the matching one with the smallest index. */
  lemma {:induction false} FirstMatchIsFirst(query: string, list: seq<Province>, i: nat)
    requires i < |list| && ProvinceMatches(query, list[i])
    requires forall j :: 0 <= j < i ==> !ProvinceMatches(query, list[j])
    ensures FirstMatch(query, list) == Some(list[i])
  {
    if i > 0 {
      assert !ProvinceMatches(query, list[0]);
      FirstMatchIsFirst(query, list[1..], i - 1);
    }
  }

  /** The US records this model keeps, in their source order. */
  const Alabama: Province := Province("AL", "Alabama", "阿拉巴马州", "Alabama", [])
  const Alaska: Province := Province("AK", "Alaska", "阿拉斯加州", "Alaska", [])
  const California: Province := Province("CA", "California", "加利福尼亚州", "California", [])
  const NewYork: Province := Province("NY", "New York", "纽约州", "New York", [])
  const ArmedForcesAmericas: Province := Province("AA", "Armed Forces Americas", "美洲美军基地", "Armed Forces Americas", [])
  const ArmedForcesAfrica: Province := Province("AE", "Armed Forces Africa", "非洲美军基地", "Armed Forces Africa", [])
  const ArmedForcesCanada: Province := Province("AE", "Armed Forces Canada", "加拿大美军基地", "Armed Forces Canada", [])
  const ArmedForcesEurope: Province := Province("AE", "Armed Forces Europe", "欧洲美军基地", "Armed Forces Europe", [])
  const ArmedForcesMiddleEast: Province := Province("AE", "Armed Forces Middle East", "中东美军基地", "Armed Forces Middle East", [])
  const ArmedForcesPacific: Province := Province("AP", "Armed Forces Pacific", "太平洋美军基地", "Armed Forces Pacific", [])

  /**
   * InitProvinceInfosByCountry: the province records of a country. Only "US" has any; this model
   * keeps a handful of its records together with all four "AE" records, in their source order.
   */
  function InitProvinceInfosByCountry(countryCode: string): (r: seq<Province>)
    ensures countryCode != "US" ==> r == []
    ensures countryCode == "US" ==> |r| == 10
    ensures forall i :: 0 <= i < |r| ==> r[i].code != [] && r[i].enName != [] && r[i].cnName != []
  {
    if countryCode == "US" then
      [ Alabama,
        Alaska,
        California,
        NewYork,
        ArmedForcesAmericas,
        ArmedForcesAfrica,
        ArmedForcesCanada,
        ArmedForcesEurope,
        ArmedForcesMiddleEast,
        ArmedForcesPacific ]
    else []
  }

  /**
   * The service object. Its cache maps a country code to the country's records; the constructor
   * puts the "US" list in, and nothing else ever adds to it.
   */
  class ProvinceService {
    var cache: map<string, seq<Province>>

    ghost predicate Valid()
      reads this
    {
      cache == map["US" := InitProvinceInfosByCountry("US")]
    }

    constructor ()
      ensures Valid()
    {
      cache := map[];
      new;
      var us := InitProvinceInfosByCountry("US");
      if "US" !in cache {
        cache := cache["US" := us];
      }
    }

    /** GetProvinceInfosByCountry: the cached list, or null for a code the cache does not hold. */
    function GetProvinceInfosByCountry(countryCode: string): (r: Option<seq<Province>>)
      reads this
      ensures Valid() ==> (r.Some? <==> countryCode == "US")
      ensures Valid() && r.Some? ==> r.value == InitProvinceInfosByCountry("US")
    {
      if countryCode in cache then Some(cache[countryCode]) else None
    }

    /**
     * GetProvinceInfo: no data when the country has no list or an empty one; otherwise the first
     * record in list order whose code, English name or Chinese name agrees with the query, or a
     * failure naming the query.
     */
    function GetProvinceInfo(countryCode: string, query: string): (r: Result<Province, ProvinceError>)
      reads this
      ensures r == Failure(NoProvinceData) <==>
                GetProvinceInfosByCountry(countryCode).None? || GetProvinceInfosByCountry(countryCode).value == []
      ensures r.Success? ==> r.value in GetProvinceInfosByCountry(countryCode).value && ProvinceMatches(query, r.value)
      ensures r == Failure(ProvinceNotFound(query)) <==>
                GetProvinceInfosByCountry(countryCode).Some? && GetProvinceInfosByCountry(countryCode).value != [] &&
                forall p :: p in GetProvinceInfosByCountry(countryCode).value ==> !ProvinceMatches(query, p)
      ensures Valid() && countryCode != "US" ==> r == Failure(NoProvinceData)
    {
      var list := GetProvinceInfosByCountry(countryCode);
      if list.None? || list.value == [] then Failure(NoProvinceData)
      else
        match FirstMatch(query, list.value)
        case None => Failure(ProvinceNotFound(query))
        case Some(p) => Success(p)
    }

    /** CheckProvince: succeeds exactly when GetProvinceInfo does, and otherwise passes its failure on. */
    function CheckProvince(countryCode: string, query: string): (r: Result<(), ProvinceError>)
      reads this
      ensures r.Success? <==> GetProvinceInfo(countryCode, query).Success?
      ensures r.Failure? ==> r.error == GetProvinceInfo(countryCode, query).error
    {
      var found := GetProvinceInfo(countryCode, query);
      if found.Failure? then Failure(found.error) else Success(())
    }
  }

  // ---------------------------------------------------------------------------------------------
  // Lookups on a freshly constructed service.

  /** A record none of whose three names agrees with the query up to position i does not match it. */
  lemma RecordDiffersAt(query: string, p: Province, i: nat)
    requires i < |query| && forall m :: 0 <= m <= i ==> query[m] != ' '
    requires i < |p.code| && (forall m :: 0 <= m <= i ==> p.code[m] != ' ') && UpperChar(query[i]) != UpperChar(p.code[i])
    requires i < |p.enName| && (forall m :: 0 <= m <= i ==> p.enName[m] != ' ') && UpperChar(query[i]) != UpperChar(p.enName[i])
    requires i < |p.cnName| && (forall m :: 0 <= m <= i ==> p.cnName[m] != ' ') && UpperChar(query[i]) != UpperChar(p.cnName[i])
    ensures !ProvinceMatches(query, p)
  {
    DifferentCharNoMatch(query, p.code, i);
    DifferentCharNoMatch(query, p.enName, i);
    DifferentCharNoMatch(query, p.cnName, i);
  }

  /** A query whose first character is an N, in either case. */
  predicate StartsWithN(query: string)
  {
    |query| > 0 && UpperChar(query[0]) == 'N'
  }

  // Each of the first three US records differs from such a query in the first character, in code
  // and in both names; one lemma per record keeps each proof small.

  lemma StartsWithNMissesAlabama(query: string)
    requires StartsWithN(query)
    ensures !ProvinceMatches(query, InitProvinceInfosByCountry("US")[0])
  {
    assert InitProvinceInfosByCountry("US")[0] == Alabama;
    RecordDiffersAt(query, Alabama, 0);
  }

  lemma StartsWithNMissesAlaska(query: string)
    requires StartsWithN(query)
    ensures !ProvinceMatches(query, InitProvinceInfosByCountry("US")[1])
  {
    assert InitProvinceInfosByCountry("US")[1] == Alaska;
    RecordDiffersAt(query, Alaska, 0);
  }

  lemma StartsWithNMissesCalifornia(query: string)
    requires StartsWithN(query)
    ensures !ProvinceMatches(query, InitProvinceInfosByCountry("US")[2])
  {
    assert InitProvinceInfosByCountry("US")[2] == California;
    RecordDiffersAt(query, California, 0);
  }

  /** No such query matches one of the first three US records. */
  lemma NotBeforeNewYork(query: string, j: nat)
    requires StartsWithN(query)
    requires j < 3
    ensures !ProvinceMatches(query, InitProvinceInfosByCountry("US")[j])
  {
    if j == 0 {
      StartsWithNMissesAlabama(query);
    } else if j == 1 {
      StartsWithNMissesAlaska(query);
    } else {
      StartsWithNMissesCalifornia(query);
    }
  }

  /** On a fresh service, a US query finds the record at i when it is the first one matching. */
  lemma FoundAt(s: ProvinceService, query: string, i: nat)
    requires s.Valid()
    requires i < |InitProvinceInfosByCountry("US")|
    requires ProvinceMatches(query, InitProvinceInfosByCountry("US")[i])
    requires forall j :: 0 <= j < i ==> !ProvinceMatches(query, InitProvinceInfosByCountry("US")[j])
    ensures s.GetProvinceInfo("US", query) == Success(InitProvinceInfosByCountry("US")[i])
  {
    FirstMatchIsFirst(query, InitProvinceInfosByCountry("US"), i);
  }

  /** A query matching the New York record and starting with an N finds that record. */
  lemma FoundNewYork(s: ProvinceService, query: string)
    requires s.Valid()
    requires StartsWithN(query)
    requires ProvinceMatches(query, NewYork)
    ensures s.GetProvinceInfo("US", query) == Success(NewYork)
  {
    forall j | 0 <= j < 3
      ensures !ProvinceMatches(query, InitProvinceInfosByCountry("US")[j])
    {
      NotBeforeNewYork(query, j);
    }
    FoundAt(s, query, 3);
  }

  /** "NY", "New York" and "new york" all find the New York record, the fourth of the US list. */
  lemma NewYorkByCode(s: ProvinceService)
    requires s.Valid()
    ensures s.GetProvinceInfo("US", "NY") == Success(NewYork)
  {
    SameProvinceReflexive("NY");
    FoundNewYork(s, "NY");
  }

  lemma NewYorkByName(s: ProvinceService)
    requires s.Valid()
    ensures s.GetProvinceInfo("US", "New York") == Success(NewYork)
  {
    SameProvinceReflexive("New York");
    FoundNewYork(s, "New York");
  }

  lemma NewYorkByLowerCaseName(s: ProvinceService)
    requires s.Valid()
    ensures s.GetProvinceInfo("US", "new york") == Success(NewYork)
  {
    var query := "new york";
    assert ToUpper(query) == ToUpper(NewYork.enName);
    SameProvinceIgnoresCaseAndSpaces(query, NewYork.enName, NewYork.enName);
    SameProvinceReflexive(NewYork.enName);
    assert ProvinceMatches(query, NewYork);
    assert StartsWithN(query);
    FoundNewYork(s, query);
  }

  /** A query spelling "AE" in either case: the code shared by the four Armed Forces records. */
  predicate SpellsAE(query: string)
  {
    |query| == 2 && UpperChar(query[0]) == 'A' && UpperChar(query[1]) == 'E'
  }

  // Each record before the first "AE" record differs from such a query in its first or second
  // character, in code and in both names.

  lemma SpellsAEMissesAlabama(query: string)
    requires SpellsAE(query)
    ensures !ProvinceMatches(query, InitProvinceInfosByCountry("US")[0])
  {
    assert InitProvinceInfosByCountry("US")[0] == Alabama;
    RecordDiffersAt(query, Alabama, 1);
  }

  lemma SpellsAEMissesAlaska(query: string)
    requires SpellsAE(query)
    ensures !ProvinceMatches(query, InitProvinceInfosByCountry("US")[1])
  {
    assert InitProvinceInfosByCountry("US")[1] == Alaska;
    RecordDiffersAt(query, Alaska, 1);
  }

  lemma SpellsAEMissesCalifornia(query: string)
    requires SpellsAE(query)
    ensures !ProvinceMatches(query, InitProvinceInfosByCountry("US")[2])
  {
    assert InitProvinceInfosByCountry("US")[2] == California;
    RecordDiffersAt(query, California, 1);
  }

  lemma SpellsAEMissesNewYork(query: string)
    requires SpellsAE(query)
    ensures !ProvinceMatches(query, InitProvinceInfosByCountry("US")[3])
  {
    assert InitProvinceInfosByCountry("US")[3] == NewYork;
    RecordDiffersAt(query, NewYork, 0);
  }

  lemma SpellsAEMissesAmericas(query: string)
    requires SpellsAE(query)
    ensures !ProvinceMatches(query, InitProvinceInfosByCountry("US")[4])
  {
    assert InitProvinceInfosByCountry("US")[4] == ArmedForcesAmericas;
    RecordDiffersAt(query, ArmedForcesAmericas, 1);
  }

  /** None of the five US records before the first "AE" record matches such a query. */
  lemma NotBeforeFirstAE(query: string, j: nat)
    requires SpellsAE(query)
    requires j < 5
    ensures !ProvinceMatches(query, InitProvinceInfosByCountry("US")[j])
  {
    if j == 0 {
      SpellsAEMissesAlabama(query);
    } else if j == 1 {
      SpellsAEMissesAlaska(query);
    } else if j == 2 {
      SpellsAEMissesCalifornia(query);
    } else if j == 3 {
      SpellsAEMissesNewYork(query);
    } else {
      SpellsAEMissesAmericas(query);
    }
  }

  /** A query spelling "AE" and matching the Armed Forces Africa record finds that record. */
  lemma FoundArmedForcesAfrica(s: ProvinceService, query: string)
    requires s.Valid()
    requires SpellsAE(query)
    requires ProvinceMatches(query, ArmedForcesAfrica)
    ensures s.GetProvinceInfo("US", query) == Success(ArmedForcesAfrica)
  {
    forall j | 0 <= j < 5
      ensures !ProvinceMatches(query, InitProvinceInfosByCountry("US")[j])
    {
      NotBeforeFirstAE(query, j);
    }
    FoundAt(s, query, 5);
  }

  /**
   * The code "AE" is shared by four records; the lookup always gives the first of them, Armed
   * Forces Africa.
   */
  lemma DuplicateCodeResolvesToFirst(s: ProvinceService)
    requires s.Valid()
    ensures s.GetProvinceInfo("US", "AE") == Success(ArmedForcesAfrica)
    ensures s.GetProvinceInfo("US", "AE").value.enName == "Armed Forces Africa"
  {
    SameProvinceReflexive(ArmedForcesAfrica.code);
    assert ProvinceMatches("AE", ArmedForcesAfrica);
    assert SpellsAE("AE");
    FoundArmedForcesAfrica(s, "AE");
  }

  /** The cache key is case-sensitive: "us" has no list. */
  lemma LowerCaseCountryHasNoData(s: ProvinceService)
    requires s.Valid()
    ensures s.CheckProvince("us", "NY") == Failure(NoProvinceData)
  {
  }
}
