/**
 * The geographic drill-down: a map of states; clicking a state shows its
 * three busiest cities, clicking a city shows its five busiest employers as
 * stacked bars. The component's five `useState` hooks are the fields of
 * `MapView`; its click handlers are the methods that update them.
 */
module MultiLevelMap {
  import opened Wrappers
  import opened Petitions
  import opened Text
  import opened Ranking
  import opened Grouping

  /**
   * `stateAbbreviations[code]`: the state named by a lower-case two-letter
   * postal code, for the 50 states; any other string (an upper-case code,
   * "dc", an empty field) looks up nothing.
   */
  function StateAbbreviations(code: string): Option<string> {
    match code
    case "al" => Some("Alabama")
    case "ak" => Some("Alaska")
    case "az" => Some("Arizona")
    case "ar" => Some("Arkansas")
    case "ca" => Some("California")
    case "co" => Some("Colorado")
    case "ct" => Some("Connecticut")
    case "de" => Some("Delaware")
    case "fl" => Some("Florida")
    case "ga" => Some("Georgia")
    case "hi" => Some("Hawaii")
    case "id" => Some("Idaho")
    case "il" => Some("Illinois")
    case "in" => Some("Indiana")
    case "ia" => Some("Iowa")
    case "ks" => Some("Kansas")
    case "ky" => Some("Kentucky")
    case "la" => Some("Louisiana")
    case "me" => Some("Maine")
    case "md" => Some("Maryland")
    case "ma" => Some("Massachusetts")
    case "mi" => Some("Michigan")
    case "mn" => Some("Minnesota")
    case "ms" => Some("Mississippi")
    case "mo" => Some("Missouri")
    case "mt" => Some("Montana")
    case "ne" => Some("Nebraska")
    case "nv" => Some("Nevada")
    case "nh" => Some("New Hampshire")
    case "nj" => Some("New Jersey")
    case "nm" => Some("New Mexico")
    case "ny" => Some("New York")
    case "nc" => Some("North Carolina")
    case "nd" => Some("North Dakota")
    case "oh" => Some("Ohio")
    case "ok" => Some("Oklahoma")
    case "or" => Some("Oregon")
    case "pa" => Some("Pennsylvania")
    case "ri" => Some("Rhode Island")
    case "sc" => Some("South Carolina")
    case "sd" => Some("South Dakota")
    case "tn" => Some("Tennessee")
    case "tx" => Some("Texas")
    case "ut" => Some("Utah")
    case "vt" => Some("Vermont")
    case "va" => Some("Virginia")
    case "wa" => Some("Washington")
    case "wv" => Some("West Virginia")
    case "wi" => Some("Wisconsin")
    case "wy" => Some("Wyoming")
    case _ => None
  }

  /** The row's state code maps to `stateName` in the table (an unknown code maps to nothing). */
  predicate InState(r: Row, stateName: string) {
    StateAbbreviations(r.petitionerState) == Some(stateName)
  }

  function InStateOf(stateName: string): Row -> bool {
    r => InState(r, stateName)
  }

  /** The rows of the clicked state. */
  function StateRows(data: seq<Row>, stateName: string): seq<Row> {
    Filter(data, InStateOf(stateName))
  }

  /** The grouping key of a city: trimmed and lower-cased. */
  function CityKey(name: string): string {
    Lower(Trim(name))
  }

  function CityKeyOf(r: Row): string {
    CityKey(r.petitionerCity)
  }

  /** A city marker: the name and coordinates of its first row, and its initial petitions. */
  datatype City = City(city: string, total: int, hasCoordinates: bool)

  function CityTotal(c: City): int { c.total }

  /** `total += n` on a city entry. */
  function AddTotal(c: City, n: int): City { c.(total := c.total + n) }
  function HasCoordinates(c: City): bool { c.hasCoordinates }

  /** The city of key `k`: name and coordinates from its first row, total over all its rows. */
  function CityOf(rows: seq<Row>, k: string): City
    requires k in KeysOf(rows, CityKeyOf)
  {
    var first := FirstRow(rows, CityKeyOf, k);
    City(first.petitionerCity, SumWhere(rows, CityKeyOf, k, InitialOf), first.hasCoordinates)
  }

  /** The cities of `rows`, one per key, in order of first appearance. */
  function CityGroups(rows: seq<Row>): seq<City> {
    var keys := FirstSeen(KeysOf(rows, CityKeyOf));
    FirstSeenKeys(KeysOf(rows, CityKeyOf));
    seq(|keys|, j requires 0 <= j < |keys| => CityOf(rows, keys[j]))
  }

  /** Every city of the state that has coordinates, ranked by total, ties in first-seen order. */
  function CityRanking(data: seq<Row>, stateName: string): seq<City> {
    SortDesc(Filter(CityGroups(StateRows(data, stateName)), HasCoordinates), CityTotal)
  }

  /** The markers shown after a state click: the top 3 of the ranking. */
  function TopCities(data: seq<Row>, stateName: string): seq<City> {
    Take(CityRanking(data, stateName), 3)
  }

  /** The employer key of the city view: an empty name becomes "Unknown Company". */
  function CompanyKeyOf(r: Row): string {
    if r.employerName == "" then "Unknown Company" else r.employerName
  }

  /** The city filter as written: lower-cased, untrimmed, in any state. */
  predicate SameCity(r: Row, cityName: string) {
    Lower(r.petitionerCity) == Lower(cityName)
  }

  function SameCityOf(cityName: string): Row -> bool {
    r => SameCity(r, cityName)
  }

  /** The rows of the clicked city. */
  function CityRows(data: seq<Row>, cityName: string): seq<Row> {
    Filter(data, SameCityOf(cityName))
  }

  /** Every employer of the city, ranked by initial approvals plus initial denials. */
  function CompanyRanking(data: seq<Row>, city: City): seq<Group> {
    SortDesc(Groups(CityRows(data, city.city), CompanyKeyOf), GroupInitial)
  }

  /** The bars shown after a city click: the top 5 of the ranking. */
  function TopCompanies(data: seq<Row>, city: City): seq<Group> {
    Take(CompanyRanking(data, city), 5)
  }

  /** `getTextOffset`: marker labels alternate above and below. */
  function TextOffset(index: nat): (r: int)
    ensures r == -10 || r == 10
    ensures r == -10 <==> index % 2 == 0
  {
    if index % 2 == 0 then -10 else 10
  }

  // ---------------------------------------------------------------------------
  // Stacked bars

  datatype Category = InitialApproval | InitialDenial | ContinuingApproval | ContinuingDenial

  /** The fixed order in which a company's bar stacks its four counts. */
  const Categories: seq<Category> := [InitialApproval, InitialDenial, ContinuingApproval, ContinuingDenial]

  function ValueOf(c: Counts, category: Category): int {
    match category
    case InitialApproval => c.initialApproval
    case InitialDenial => c.initialDenial
    case ContinuingApproval => c.continuingApproval
    case ContinuingDenial => c.continuingDenial
  }

  /** One `rect`: its category, its left edge and its width. */
  datatype Segment = Segment(category: Category, x: real, width: real)

  /** One company's bar: its four segments, and the position and text of its total label. */
  datatype Bar = Bar(company: string, segments: seq<Segment>, labelX: real, totalLabel: int)

  /** The scaled widths of the first `n` categories, summed. */
  function Offset(c: Counts, scale: int -> real, n: nat): real
    requires n <= |Categories|
  {
    if n == 0 then 0.0 else Offset(c, scale, n - 1) + scale(ValueOf(c, Categories[n - 1]))
  }

  /**
   * A bar laid out as stacked segments: it starts at 0, its segments follow the
   * fixed category order, each is as wide as its scaled count and starts where
   * the previous one ends, and the total label sits where the last one ends, at
   * the sum of the four scaled widths.
   */
  predicate LaidOut(bar: Bar, company: Group, scale: int -> real) {
    var c := company.counts;
    && bar.company == company.key
    && |bar.segments| == 4
    && bar.segments[0].x == 0.0
    && (forall k :: 0 <= k < 4 ==>
          bar.segments[k].category == Categories[k] && bar.segments[k].width == scale(ValueOf(c, Categories[k])))
    && (forall k :: 0 <= k < 3 ==> bar.segments[k + 1].x == bar.segments[k].x + bar.segments[k].width)
    && bar.labelX == bar.segments[3].x + bar.segments[3].width
    && bar.labelX == scale(c.initialApproval) + scale(c.initialDenial) + scale(c.continuingApproval) + scale(c.continuingDenial)
    && bar.totalLabel == c.Total()
  }

  /** One company's bar, with the running `xOffset` of `renderBarChart`. */
  method LayoutBar(company: Group, scale: int -> real) returns (bar: Bar)
    ensures LaidOut(bar, company, scale)
  {
    var c := company.counts;
    var xOffset := 0.0;
    var segments: seq<Segment> := [];
    for index := 0 to |Categories|
      invariant |segments| == index
      invariant xOffset == Offset(c, scale, index)
      invariant forall k :: 0 <= k < index ==>
                  segments[k] == Segment(Categories[k], Offset(c, scale, k), scale(ValueOf(c, Categories[k])))
    {
      var category := Categories[index];
      var value := ValueOf(c, category);
      var xPosition := xOffset;
      xOffset := xOffset + scale(value);
      segments := segments + [Segment(category, xPosition, scale(value))];
    }
    bar := Bar(company.key, segments, xOffset, c.Total());
  }

  // ---------------------------------------------------------------------------
  // The `reduce` loops

  /** A city of `pre + [r]` from the city of `pre`: a new key starts from `r`, an old one only adds. */
  lemma CityOfStep(pre: seq<Row>, r: Row, k: string)
    requires k in KeysOf(pre + [r], CityKeyOf)
    ensures CityOf(pre + [r], k) ==
      if k !in KeysOf(pre, CityKeyOf) then City(r.petitionerCity, InitialOf(r), r.hasCoordinates)
      else if CityKeyOf(r) == k then CityOf(pre, k).(total := CityOf(pre, k).total + InitialOf(r))
      else CityOf(pre, k)
  {
    var rows := pre + [r];
    assert rows[..|rows| - 1] == pre;
    assert rows[|rows| - 1] == r;
    var sum := SumWhere(rows, CityKeyOf, k, InitialOf);
    assert sum == SumWhere(pre, CityKeyOf, k, InitialOf) + (if CityKeyOf(r) == k then InitialOf(r) else 0);
    if k !in KeysOf(pre, CityKeyOf) {
      assert FirstRow(rows, CityKeyOf, k) == r;
      SumWhereAbsent(pre, CityKeyOf, k, InitialOf);
    } else {
      assert FirstRow(rows, CityKeyOf, k) == FirstRow(pre, CityKeyOf, k);
    }
  }

  /**
   * The dictionary the city `reduce` has built after the rows `rows`: a new
   * city starts from its row's name, initial petitions and coordinates; a known
   * one only adds to its total.
   */
  function CityMap(rows: seq<Row>): map<string, City> {
    if rows == [] then map[]
    else
      var acc := CityMap(rows[..|rows| - 1]);
      var r := rows[|rows| - 1];
      var k := CityKeyOf(r);
      if k in acc then acc[k := AddTotal(acc[k], InitialOf(r))]
      else acc[k := City(r.petitionerCity, InitialOf(r), r.hasCoordinates)]
  }

  lemma {:induction false} CityMapSpec(rows: seq<Row>)
    ensures forall k :: k in CityMap(rows) <==> k in KeysOf(rows, CityKeyOf)
    ensures forall k :: k in CityMap(rows) ==> k in KeysOf(rows, CityKeyOf) && CityMap(rows)[k] == CityOf(rows, k)
  {
    if rows != [] {
      var pre, r := rows[..|rows| - 1], rows[|rows| - 1];
      assert rows == pre + [r];
      CityMapSpec(pre);
      KeysStep(pre, r, CityKeyOf);
      forall k | k in CityMap(rows) ensures CityMap(rows)[k] == CityOf(rows, k) {
        CityOfStep(pre, r, k);
      }
    }
  }

  lemma CityMapValues(rows: seq<Row>)
    ensures forall k <- FirstSeen(KeysOf(rows, CityKeyOf)) :: k in CityMap(rows)
    ensures Values(CityMap(rows), FirstSeen(KeysOf(rows, CityKeyOf))) == CityGroups(rows)
  {
    var keys := FirstSeen(KeysOf(rows, CityKeyOf));
    var m := CityMap(rows);
    assert forall k <- keys :: k in m && k in KeysOf(rows, CityKeyOf) && m[k] == CityOf(rows, k) by {
      CityMapSpec(rows);
      FirstSeenKeys(KeysOf(rows, CityKeyOf));
    }
    var vs := Values(m, keys);
    var cs := CityGroups(rows);
    forall j | 0 <= j < |vs| ensures vs[j] == cs[j] {
      assert keys[j] in keys;
    }
    SamePointwise(vs, cs);
  }

  /** One more row: a new key joins the key order with a fresh entry, a known key only adds. */
  lemma CityMapStep(pre: seq<Row>, r: Row)
    ensures var acc, k := CityMap(pre), CityKeyOf(r);
      && (k in acc <==> k in FirstSeen(KeysOf(pre, CityKeyOf)))
      && CityMap(pre + [r]) ==
           (if k in acc then acc[k := AddTotal(acc[k], InitialOf(r))]
            else acc[k := City(r.petitionerCity, InitialOf(r), r.hasCoordinates)])
      && FirstSeen(KeysOf(pre + [r], CityKeyOf)) ==
           (if k in acc then FirstSeen(KeysOf(pre, CityKeyOf)) else FirstSeen(KeysOf(pre, CityKeyOf)) + [k])
  {
    var acc, k := CityMap(pre), CityKeyOf(r);
    assert CityMap(pre + [r]) ==
      (if k in acc then acc[k := AddTotal(acc[k], InitialOf(r))]
       else acc[k := City(r.petitionerCity, InitialOf(r), r.hasCoordinates)]) by {
      assert (pre + [r])[..|pre|] == pre;
    }
    KeysStep(pre, r, CityKeyOf);
    assert k in acc <==> k in KeysOf(pre, CityKeyOf) by { CityMapSpec(pre); }
    FirstSeenKeys(KeysOf(pre, CityKeyOf));
  }

  /** The `reduce` of `handleStateClick` over the state's rows, then `Object.values`. */
  method GroupCities(rows: seq<Row>) returns (cities: seq<City>)
    requires forall r <- rows :: InitialParsable(r)
    ensures cities == CityGroups(rows)
  {
    var acc: map<string, City> := map[];
    var order: seq<string> := [];
    for i := 0 to |rows|
      invariant acc == CityMap(rows[..i])
      invariant order == FirstSeen(KeysOf(rows[..i], CityKeyOf))
    {
      var curr := rows[i];
      var cityName := CityKey(curr.petitionerCity);
      var totalPetitions := Coerce(curr.initialApproval) + Coerce(curr.initialDenial);
      PrefixStep(rows, i);
      CityMapStep(rows[..i], curr);
      assert cityName == CityKeyOf(curr) && totalPetitions == InitialOf(curr);
      if cityName !in acc {
        acc := acc[cityName := City(curr.petitionerCity, totalPetitions, curr.hasCoordinates)];
        order := order + [cityName];
      } else {
        acc := acc[cityName := AddTotal(acc[cityName], totalPetitions)];
      }
    }
    assert rows[..|rows|] == rows;
    CityMapValues(rows);
    cities := Values(acc, order);
  }

  /** The `reduce` of `handleCityClick` over the city's rows, then `Object.values`. */
  method GroupCompanies(rows: seq<Row>) returns (companies: seq<Group>)
    requires forall r <- rows :: AllParsable(r)
    ensures companies == Groups(rows, CompanyKeyOf)
  {
    var acc: map<string, Group> := map[];
    var order: seq<string> := [];
    for i := 0 to |rows|
      invariant acc == CountsMap(rows[..i], CompanyKeyOf)
      invariant order == FirstSeen(KeysOf(rows[..i], CompanyKeyOf))
    {
      var curr := rows[i];
      var companyName := if curr.employerName == "" then "Unknown Company" else curr.employerName;
      var initialApproval := Coerce(curr.initialApproval);
      var initialDenial := Coerce(curr.initialDenial);
      var continuingApproval := Coerce(curr.continuingApproval);
      var continuingDenial := Coerce(curr.continuingDenial);
      var counts := Counts(initialApproval, initialDenial, continuingApproval, continuingDenial);
      PrefixStep(rows, i);
      CountsMapStep(rows[..i], curr, CompanyKeyOf);
      assert companyName == CompanyKeyOf(curr) && counts == CountsOf(curr);
      if companyName !in acc {
        acc := acc[companyName := Group(companyName, counts)];
        order := order + [companyName];
      } else {
        // the four `+=` on the existing entry
        acc := acc[companyName := Group(companyName, acc[companyName].counts.Plus(counts))];
      }
    }
    assert rows[..|rows|] == rows;
    CountsMapValues(rows, CompanyKeyOf);
    companies := Values(acc, order);
  }

  // ---------------------------------------------------------------------------
  // Properties of the drill-down

  /**
   * A row is in the state view exactly when its code is one of the lower-case
   * table keys and that key names the clicked state; order is kept.
   */
  lemma StateRowsSpec(data: seq<Row>, stateName: string)
    ensures |StateRows(data, stateName)| <= |data|
    ensures forall r :: r in StateRows(data, stateName) <==>
      r in data && StateAbbreviations(r.petitionerState) == Some(stateName)
  {
    FilterMembers(data, InStateOf(stateName));
  }

  /**
   * The table knows only two-letter lower-case codes, so an upper-case code
   * never selects a state: "ca" is California, "CA" and "dc" are nothing.
   */
  lemma StateCodes(code: string)
    ensures StateAbbreviations(code).Some? ==> |code| == 2 && 'a' <= code[0] <= 'z' && 'a' <= code[1] <= 'z'
    ensures StateAbbreviations("ca") == Some("California")
    ensures StateAbbreviations("CA") == None && StateAbbreviations("dc") == None && StateAbbreviations("") == None
  {
  }

  /** Whitespace around a city name does not change its key. */
  lemma CityKeyIgnoresPadding(pre: string, name: string, post: string)
    requires AllWhitespace(pre) && AllWhitespace(post)
    ensures CityKey(pre + name + post) == CityKey(name)
  {
    TrimIgnoresPadding(pre, name, post);
  }

  /** Names that differ only in letter case share a key. */
  lemma CityKeyIgnoresCase(a: string, b: string)
    requires Lower(a) == Lower(b)
    ensures CityKey(a) == CityKey(b)
  {
    TrimLower(a);
    TrimLower(b);
    LowerIdempotent(Trim(a));
    LowerIdempotent(Trim(b));
  }

  /** "Austin", " austin " and "AUSTIN" are one city. */
  lemma AustinIsOneCity()
    ensures CityKey("Austin") == CityKey(" austin ") == CityKey("AUSTIN") == "austin"
  {
    CityKeyIgnoresPadding(" ", "austin", " ");
    assert " " + "austin" + " " == " austin ";
    CityKeyIgnoresCase("Austin", "austin");
    CityKeyIgnoresCase("AUSTIN", "austin");
    assert Trim("austin") == "austin";
  }

  /** The key of each city is the key of the rows it gathers. */
  lemma CityKeys(rows: seq<Row>)
    ensures var keys := FirstSeen(KeysOf(rows, CityKeyOf));
      |CityGroups(rows)| == |keys| && forall i :: 0 <= i < |keys| ==> CityKey(CityGroups(rows)[i].city) == keys[i]
  {
    var keys := FirstSeen(KeysOf(rows, CityKeyOf));
    FirstSeenKeys(KeysOf(rows, CityKeyOf));
    forall i | 0 <= i < |keys| ensures CityKey(CityGroups(rows)[i].city) == keys[i] {
      assert keys[i] in keys;
      var n := FirstRowIsFirst(rows, CityKeyOf, keys[i]);
    }
  }

  /**
   * One city per distinct key, and each city's total is initial approvals plus
   * initial denials summed over the rows of its key.
   */
  lemma CityGroupsSpec(rows: seq<Row>)
    ensures var cs := CityGroups(rows);
      && (forall i, j :: 0 <= i < j < |cs| ==> CityKey(cs[i].city) != CityKey(cs[j].city))
      && (forall k :: k in KeysOf(rows, CityKeyOf) <==> exists i :: 0 <= i < |cs| && CityKey(cs[i].city) == k)
      && (forall i :: 0 <= i < |cs| ==> cs[i].total == SumWhere(rows, CityKeyOf, CityKey(cs[i].city), InitialOf))
  {
    var keys := FirstSeen(KeysOf(rows, CityKeyOf));
    var cs := CityGroups(rows);
    FirstSeenKeys(KeysOf(rows, CityKeyOf));
    CityKeys(rows);
    forall k ensures k in KeysOf(rows, CityKeyOf) <==> exists i :: 0 <= i < |cs| && CityKey(cs[i].city) == k {
      if k in keys {
        var i :| 0 <= i < |keys| && keys[i] == k;
        assert CityKey(cs[i].city) == k;
      }
    }
  }

  /**
   * A city's name and coordinates are those of the first row with its key:
   * the row at index `n`, and no earlier row has that key.
   */
  lemma CityFromFirstRow(rows: seq<Row>, i: nat) returns (n: nat)
    requires i < |CityGroups(rows)|
    ensures n < |rows| && CityKeyOf(rows[n]) == CityKey(CityGroups(rows)[i].city)
    ensures CityGroups(rows)[i].city == rows[n].petitionerCity
    ensures CityGroups(rows)[i].hasCoordinates == rows[n].hasCoordinates
    ensures forall m :: 0 <= m < n ==> CityKeyOf(rows[m]) != CityKeyOf(rows[n])
  {
    var keys := FirstSeen(KeysOf(rows, CityKeyOf));
    FirstSeenKeys(KeysOf(rows, CityKeyOf));
    assert keys[i] in keys;
    n := FirstRowIsFirst(rows, CityKeyOf, keys[i]);
  }

  /**
   * Later rows never overwrite a city: the cities of a prefix of the rows keep
   * their positions, names and coordinates when more rows follow.
   */
  lemma CitiesNotOverwritten(rows: seq<Row>, more: seq<Row>)
    ensures |CityGroups(rows)| <= |CityGroups(rows + more)|
    ensures forall i :: 0 <= i < |CityGroups(rows)| ==>
      CityGroups(rows + more)[i].city == CityGroups(rows)[i].city &&
      CityGroups(rows + more)[i].hasCoordinates == CityGroups(rows)[i].hasCoordinates
  {
    var all := rows + more;
    assert all[..|rows|] == rows;
    KeysOfPrefix(all, CityKeyOf, |rows|);
    FirstSeenPrefix(KeysOf(all, CityKeyOf), |rows|);
    var keys := FirstSeen(KeysOf(rows, CityKeyOf));
    FirstSeenKeys(KeysOf(rows, CityKeyOf));
    forall i | 0 <= i < |keys|
      ensures CityGroups(all)[i].city == CityGroups(rows)[i].city
      ensures CityGroups(all)[i].hasCoordinates == CityGroups(rows)[i].hasCoordinates
    {
      assert keys[i] in keys;
      FirstRowStable(rows, more, CityKeyOf, keys[i]);
    }
  }

  /** The city totals add up to initial approvals plus initial denials over all the rows. */
  lemma CityTotalsPreserved(rows: seq<Row>)
    ensures SumSeq(CityGroups(rows), CityTotal) == SumSeq(rows, InitialOf)
  {
    var keys := FirstSeen(KeysOf(rows, CityKeyOf));
    SumOverKeys(CityGroups(rows), CityTotal, keys, rows, CityKeyOf, InitialOf);
    SumPreserved(rows, CityKeyOf, InitialOf);
  }

  /**
   * The markers after a state click: at most 3 cities, all with coordinates and
   * all cities of that state, sorted by total, the head of the full ranking with
   * nothing left out ranked above a city shown, and ties in first-seen order.
   */
  lemma TopCitiesSpec(data: seq<Row>, stateName: string)
    ensures var all := CityGroups(StateRows(data, stateName));
      var located := Filter(all, HasCoordinates);
      var ranking := CityRanking(data, stateName);
      var top := TopCities(data, stateName);
      && |top| == (if |located| <= 3 then |located| else 3)
      && SortedDesc(top, CityTotal)
      && top == ranking[..|top|]
      && (forall i, j :: 0 <= i < |top| <= j < |ranking| ==> top[i].total >= ranking[j].total)
      && (forall c <- top :: c.hasCoordinates && c in all)
      && (forall v :: WithKey(ranking, CityTotal, v) == WithKey(located, CityTotal, v))
  {
    var all := CityGroups(StateRows(data, stateName));
    var located := Filter(all, HasCoordinates);
    TopN(located, CityTotal, 3);
    FilterMembers(all, HasCoordinates);
    var top := TopCities(data, stateName);
    forall c | c in top ensures c.hasCoordinates && c in all {
      TopMember(located, CityTotal, 3, c);
      assert HasCoordinates(c);
    }
    forall v ensures WithKey(CityRanking(data, stateName), CityTotal, v) == WithKey(located, CityTotal, v) {
      SortDescStable(located, CityTotal, v);
    }
  }

  /** A row is in the city view exactly when its lower-cased, untrimmed city equals the clicked one, in any state. */
  lemma CityRowsSpec(data: seq<Row>, cityName: string)
    ensures |CityRows(data, cityName)| <= |data|
    ensures forall r :: r in CityRows(data, cityName) <==> r in data && Lower(r.petitionerCity) == Lower(cityName)
  {
    FilterMembers(data, SameCityOf(cityName));
  }

  /**
   * The bars after a city click: at most 5 employers of the city view, each
   * with the four counts summed over its rows, sorted by initial approvals
   * plus initial denials, the head of the full ranking, ties in first-seen order.
   */
  lemma TopCompaniesSpec(data: seq<Row>, city: City)
    ensures var rows := CityRows(data, city.city);
      var all := Groups(rows, CompanyKeyOf);
      var ranking := CompanyRanking(data, city);
      var top := TopCompanies(data, city);
      && |top| == (if |all| <= 5 then |all| else 5)
      && SortedDesc(top, GroupInitial)
      && top == ranking[..|top|]
      && (forall i, j :: 0 <= i < |top| <= j < |ranking| ==> top[i].counts.Initial() >= ranking[j].counts.Initial())
      && (forall g <- top :: g in all && g.counts == CountsWhere(rows, CompanyKeyOf, g.key))
      && (forall v :: WithKey(ranking, GroupInitial, v) == WithKey(all, GroupInitial, v))
  {
    var rows := CityRows(data, city.city);
    var all := Groups(rows, CompanyKeyOf);
    TopN(all, GroupInitial, 5);
    var top := TopCompanies(data, city);
    forall g | g in top ensures g in all && g.counts == CountsWhere(rows, CompanyKeyOf, g.key) {
      TopMember(all, GroupInitial, 5, g);
      GroupsMember(rows, CompanyKeyOf, g);
    }
    forall v ensures WithKey(CompanyRanking(data, city), GroupInitial, v) == WithKey(all, GroupInitial, v) {
      SortDescStable(all, GroupInitial, v);
    }
  }

  // ---------------------------------------------------------------------------
  // The city view and the city's total gather different rows

  /** A single row makes a single city carrying the row's name, coordinates and initial petitions. */
  lemma OneRowOneCity(r: Row)
    ensures CityGroups([r]) == [City(r.petitionerCity, InitialOf(r), r.hasCoordinates)]
  {
    var k := CityKeyOf(r);
    assert [r][..0] == [];
    assert KeysOf([r], CityKeyOf) == [k];
    assert [k][..0] == [];
    assert FirstSeen(KeysOf([r], CityKeyOf)) == [k];
    assert FirstRow([r], CityKeyOf, k) == r;
    assert SumWhere([r], CityKeyOf, k, InitialOf) == InitialOf(r);
    SamePointwise(CityGroups([r]), [City(r.petitionerCity, InitialOf(r), r.hasCoordinates)]);
  }

  /** Of two rows, a filter keeping the first and dropping the second keeps just the first. */
  lemma KeepFirstOfTwo(a: Row, b: Row, p: Row -> bool)
    requires p(a) && !p(b)
    ensures Filter([a, b], p) == [a]
  {
    assert [a, b] == [a] + [b] && [a][..0] == [] && [b][..0] == [];
    FilterConcat([a], [b], p);
  }

  /** Of two rows, a filter keeping both keeps both, in order. */
  lemma KeepBothOfTwo(a: Row, b: Row, p: Row -> bool)
    requires p(a) && p(b)
    ensures Filter([a, b], p) == [a, b]
  {
    assert [a, b] == [a] + [b] && [a][..0] == [] && [b][..0] == [];
    FilterConcat([a], [b], p);
  }

  /** A sum over two rows is the sum of their weights. */
  lemma SumOfTwo(a: Row, b: Row, w: Row -> int)
    ensures SumSeq([a, b], w) == w(a) + w(b)
  {
    assert [a, b][..1] == [a] && [a][..0] == [];
    assert SumSeq([a], w) == w(a);
  }

  /** The table entries of the two Portlands' states. */
  lemma OregonNotMaine()
    ensures StateAbbreviations("or") == Some("Oregon")
    ensures StateAbbreviations("me") == Some("Maine")
  {
  }

  /**
   * Portland, Oregon and Portland, Maine. After a click on Oregon its one
   * city, Portland, totals 5; a click on that city then gathers the Maine row
   * as well, whose 7 the city's total never counted.
   */
  lemma CityViewCrossesStates()
    ensures var a := Row("11", "Acme", "Portland", "or", true, Number(5), Number(0), Blank, Blank);
      var b := Row("11", "Beta", "Portland", "me", true, Number(7), Number(0), Blank, Blank);
      && CityGroups(StateRows([a, b], "Oregon")) == [City("Portland", 5, true)]
      && CityRows([a, b], "Portland") == [a, b]
      && SumSeq(CityRows([a, b], "Portland"), InitialOf) == 12
  {
    var a := Row("11", "Acme", "Portland", "or", true, Number(5), Number(0), Blank, Blank);
    var b := Row("11", "Beta", "Portland", "me", true, Number(7), Number(0), Blank, Blank);
    // the state view holds only the Oregon row, which makes one city of 5
    OregonNotMaine();
    assert InStateOf("Oregon")(a) && !InStateOf("Oregon")(b);
    KeepFirstOfTwo(a, b, InStateOf("Oregon"));
    assert StateRows([a, b], "Oregon") == [a];
    OneRowOneCity(a);
    assert InitialOf(a) == 5 && InitialOf(b) == 7;
    // the city view holds both rows, which add up to 12
    assert SameCityOf("Portland")(a) && SameCityOf("Portland")(b);
    KeepBothOfTwo(a, b, SameCityOf("Portland"));
    assert CityRows([a, b], "Portland") == [a, b];
    SumOfTwo(a, b, InitialOf);
  }

  /**
   * The city view as intended: the rows of the selected state whose trimmed,
   * lower-cased city is the clicked city's key, the rows its total counts.
   */
  function CityRowsInState(data: seq<Row>, stateName: string, cityName: string): seq<Row> {
    Filter(StateRows(data, stateName), KeyIs(CityKeyOf, CityKey(cityName)))
  }

  /**
   * For every city of a state, the intended city view adds up to the city's
   * total: the bars then account for exactly the petitions on the marker.
   */
  lemma CityRowsInStateMatchTotal(data: seq<Row>, stateName: string, i: nat)
    requires i < |CityGroups(StateRows(data, stateName))|
    ensures var c := CityGroups(StateRows(data, stateName))[i];
      SumSeq(CityRowsInState(data, stateName, c.city), InitialOf) == c.total
  {
    var rows := StateRows(data, stateName);
    var c := CityGroups(rows)[i];
    CityGroupsSpec(rows);
    SumOfKeyFilter(rows, CityKeyOf, CityKey(c.city), InitialOf);
  }

  // ---------------------------------------------------------------------------
  // The component state

  class MapView {
    var selectedState: Option<string>
    var cities: seq<City>
    var highlightedState: Option<string>
    var selectedCity: Option<City>
    var companyData: seq<Group>

    /** At most 3 markers and 5 bars, and the highlighted state is the selected one. */
    predicate Valid()
      reads this
    {
      |cities| <= 3 && |companyData| <= 5 && highlightedState == selectedState
    }

    /** The initial `useState` values. */
    constructor ()
      ensures Valid()
      ensures selectedState == None && cities == [] && highlightedState == None
      ensures selectedCity == None && companyData == []
    {
      selectedState, cities, highlightedState := None, [], None;
      selectedCity, companyData := None, [];
    }

    /**
     * `handleStateClick`: selects and highlights the state and shows its top
     * cities; the selected city and its bars are left as they were.
     */
    method HandleStateClick(data: seq<Row>, stateName: string)
      requires Valid()
      requires forall r <- data :: InState(r, stateName) ==> InitialParsable(r)
      modifies this
      ensures Valid()
      ensures selectedState == Some(stateName) && highlightedState == Some(stateName)
      ensures cities == TopCities(data, stateName)
      ensures selectedCity == old(selectedCity) && companyData == old(companyData)
    {
      var stateData := StateRows(data, stateName);
      FilterMembers(data, InStateOf(stateName));
      var cityPetitions := GroupCities(stateData);
      var sortedCities := Take(SortDesc(Filter(cityPetitions, HasCoordinates), CityTotal), 3);
      selectedState := Some(stateName);
      cities := sortedCities;
      highlightedState := Some(stateName);
    }

    /**
     * `handleCityClick`: selects the city and shows its top employers; the
     * state selection and the markers are left as they were.
     */
    method HandleCityClick(data: seq<Row>, city: City)
      requires Valid()
      requires forall r <- data :: SameCity(r, city.city) ==> AllParsable(r)
      modifies this
      ensures Valid()
      ensures selectedCity == Some(city) && companyData == TopCompanies(data, city)
      ensures selectedState == old(selectedState) && highlightedState == old(highlightedState)
      ensures cities == old(cities)
    {
      var cityData := CityRows(data, city.city);
      FilterMembers(data, SameCityOf(city.city));
      var companyPetitions := GroupCompanies(cityData);
      var sortedCompanies := Take(SortDesc(companyPetitions, GroupInitial), 5);
      selectedCity := Some(city);
      companyData := sortedCompanies;
    }

    /** The bars of `renderBarChart`, one per company shown, so at most five; `scale` is the chart's x scale. */
    method RenderBarChart(scale: int -> real) returns (bars: seq<Bar>)
      requires Valid()
      ensures |bars| == |companyData| && |bars| <= 5
      ensures forall i :: 0 <= i < |bars| ==> LaidOut(bars[i], companyData[i], scale)
    {
      bars := [];
      for i := 0 to |companyData|
        invariant |bars| == i
        invariant forall j :: 0 <= j < i ==> LaidOut(bars[j], companyData[j], scale)
      {
        var bar := LayoutBar(companyData[i], scale);
        bars := bars + [bar];
      }
    }
  }
}
