/** The country list behind app/api/countries/route.ts: the upstream
    records are looked up in a fixed table of dial codes, those without one
    are dropped, each keeps its code and common name and gets a flag made of
    regional indicator symbols, the list is sorted with the United Arab
    Emirates first and the rest by name, and an optional search term filters
    it. */
module Countries {
  import opened Wrappers
  import opened Text

  /** `dialCodeMap`, in the order of its keys: ISO 3166-1 alpha-2 code and
      international dialling prefix. The table is written in three parts. */
  const DialCodeTable: seq<(string, string)> := GulfToAsia + AsiaToEurope + EuropeToAfghanistan

  const GulfToAsia: seq<(string, string)> := [
      ("AE", "+971"), ("RU", "+7"), ("US", "+1"), ("GB", "+44"), ("SA", "+966"),
      ("QA", "+974"), ("KW", "+965"), ("OM", "+968"), ("BH", "+973"), ("CN", "+86"),
      ("IN", "+91"), ("FR", "+33"), ("DE", "+49"), ("IT", "+39"), ("ES", "+34"),
      ("JP", "+81"), ("KR", "+82"), ("BR", "+55"), ("CA", "+1")]

  const AsiaToEurope: seq<(string, string)> := [
      ("AU", "+61"), ("TR", "+90"), ("EG", "+20"), ("ID", "+62"), ("MY", "+60"),
      ("TH", "+66"), ("SG", "+65"), ("PH", "+63"), ("VN", "+84"), ("PK", "+92"),
      ("BD", "+880"), ("IR", "+98"), ("IQ", "+964"), ("JO", "+962"), ("LB", "+961"),
      ("SY", "+963"), ("YE", "+967"), ("IL", "+972"), ("CY", "+357")]

  const EuropeToAfghanistan: seq<(string, string)> := [
      ("GR", "+30"), ("PT", "+351"), ("NL", "+31"), ("BE", "+32"), ("CH", "+41"),
      ("AT", "+43"), ("SE", "+46"), ("NO", "+47"), ("DK", "+45"), ("FI", "+358"),
      ("PL", "+48"), ("CZ", "+420"), ("HU", "+36"), ("RO", "+40"), ("UA", "+380"),
      ("BY", "+375"), ("KZ", "+7"), ("UZ", "+998"), ("AF", "+93")]

  predicate IsLatinCapital(c: char) {
    'A' <= c <= 'Z'
  }

  /** A table entry: a code of two capital Latin letters and a prefix made of
      a `+` and at least one more character. */
  predicate WellFormedEntry(e: (string, string)) {
    |e.0| == 2 && IsLatinCapital(e.0[0]) && IsLatinCapital(e.0[1]) && |e.1| >= 2 && e.1[0] == '+'
  }

  predicate WellFormedTable(t: seq<(string, string)>) {
    forall i :: 0 <= i < |t| ==> WellFormedEntry(t[i])
  }

  lemma DialCodeTableWellFormed()
    ensures WellFormedTable(DialCodeTable)
  {
    FirstPartWellFormed();
    SecondPartWellFormed();
    ThirdPartWellFormed();
    ConcatWellFormed(GulfToAsia, AsiaToEurope);
    ConcatWellFormed(GulfToAsia + AsiaToEurope, EuropeToAfghanistan);
  }

  lemma FirstPartWellFormed()
    ensures WellFormedTable(GulfToAsia)
  {
  }

  lemma SecondPartWellFormed()
    ensures WellFormedTable(AsiaToEurope)
  {
  }

  lemma ThirdPartWellFormed()
    ensures WellFormedTable(EuropeToAfghanistan)
  {
  }

  lemma ConcatWellFormed(a: seq<(string, string)>, b: seq<(string, string)>)
    requires WellFormedTable(a) && WellFormedTable(b)
    ensures WellFormedTable(a + b)
  {
    forall i | 0 <= i < |a + b|
      ensures WellFormedEntry((a + b)[i])
    {
      if i >= |a| {
        assert (a + b)[i] == b[i - |a|];
      }
    }
  }

  predicate Listed(code: string) {
    exists i :: 0 <= i < |DialCodeTable| && DialCodeTable[i].0 == code
  }

  /** Key lookup in a list of pairs: the value of the first entry with key
      `k`. */
  function Lookup(t: seq<(string, string)>, k: string): (r: Option<string>)
    ensures r.None? <==> forall i :: 0 <= i < |t| ==> t[i].0 != k
    ensures r.Some? ==> (k, r.value) in t
  {
    if t == [] then None
    else if t[0].0 == k then Some(t[0].1)
    else
      var r := Lookup(t[1..], k);
      assert forall i :: 1 <= i < |t| ==> t[i] == t[1..][i - 1];
      r
  }

  /** `getDialCode`: the prefix the table lists for the code, or the empty
      string for a code it does not list. */
  function DialCode(cca2: string): (r: string)
    ensures r != "" <==> Listed(cca2)
    ensures r != "" ==> (cca2, r) in DialCodeTable && r[0] == '+'
  {
    DialCodeTableWellFormed();
    match Lookup(DialCodeTable, cca2)
    case Some(dial) => if dial != "" then dial else ""
    case None => ""
  }

  /** A record of the upstream list: its `cca2` and its `name.common`. */
  datatype RawCountry = RawCountry(cca2: string, commonName: string)

  /** An entry of the response. */
  datatype Country = Country(code: string, name: string, dialCode: string, flag: string)

  /** Offset from a capital Latin letter to its regional indicator symbol. */
  const RegionalOffset := 127397

  /** `getFlagEmoji`: the code is upper-cased, split into UTF-16 code units,
      and every unit is shifted by the regional indicator offset into a code
      point of its own. */
  function FlagEmoji(code: string): (r: string)
    ensures |r| == Utf16Length(code)
  {
    var units := Utf16Units(Upper(code));
    UpperKeepsLength(code);
    seq(|units|, k requires 0 <= k < |units| => (RegionalOffset + units[k]) as char)
  }

  lemma {:induction false} UpperKeepsLength(s: string)
    ensures Utf16Length(Upper(s)) == Utf16Length(s)
  {
    if s != [] {
      assert Upper(s)[1..] == Upper(s[1..]);
      UpperKeepsLength(s[1..]);
    }
  }

  /** For a code in the Basic Multilingual Plane the flag has one code point
      per character, and code point `i` is the offset plus the upper-cased
      character `i`. */
  lemma FlagPerCharacter(code: string)
    requires forall i :: 0 <= i < |code| ==> code[i] as int < 0x10000
    ensures |FlagEmoji(code)| == |code|
    ensures forall i :: 0 <= i < |code| ==> FlagEmoji(code)[i] as int == RegionalOffset + UpperChar(code[i]) as int
  {
    var up := Upper(code);
    assert forall i :: 0 <= i < |up| ==> up[i] == UpperChar(code[i]);
  }

  predicate IsLatinLetter(c: char) {
    'A' <= c <= 'Z' || 'a' <= c <= 'z'
  }

  predicate IsRegionalIndicator(c: char) {
    0x1F1E6 <= c as int <= 0x1F1FF
  }

  /** Reads a flag back: each regional indicator symbol becomes its capital
      letter. */
  function FlagLetters(flag: string): (r: string)
    ensures |r| == |flag|
  {
    seq(|flag|, k requires 0 <= k < |flag| => if IsRegionalIndicator(flag[k]) then (flag[k] as int - RegionalOffset) as char else '?')
  }

  /** A code made of Latin letters, in either case, becomes a sequence of
      regional indicator symbols, one per letter, that reads back as the
      upper-cased code; 'A'..'Z' land on U+1F1E6..U+1F1FF. */
  lemma FlagRoundTrip(code: string)
    requires forall i :: 0 <= i < |code| ==> IsLatinLetter(code[i])
    ensures |FlagEmoji(code)| == |code|
    ensures forall i :: 0 <= i < |code| ==> IsRegionalIndicator(FlagEmoji(code)[i])
    ensures FlagLetters(FlagEmoji(code)) == Upper(code)
  {
    FlagPerCharacter(code);
  }

  /** Two codes of Latin letters have the same flag exactly when they agree
      once upper-cased. */
  lemma FlagsDistinguishCodes(a: string, b: string)
    requires forall i :: 0 <= i < |a| ==> IsLatinLetter(a[i])
    requires forall i :: 0 <= i < |b| ==> IsLatinLetter(b[i])
    ensures FlagEmoji(a) == FlagEmoji(b) <==> Upper(a) == Upper(b)
  {
    FlagRoundTrip(a);
    FlagRoundTrip(b);
    if Upper(a) == Upper(b) {
      FlagPerCharacter(a);
      FlagPerCharacter(b);
      assert forall i :: 0 <= i < |a| ==> Upper(a)[i] == UpperChar(a[i]);
    }
  }

  /** The `map` step for one record: `null` when the table has no prefix for
      its code, otherwise the code, the common name, the prefix and the
      flag. */
  function ToCountry(raw: RawCountry): (r: Option<Country>)
    ensures r.None? <==> !Listed(raw.cca2)
    ensures r.Some? ==> r.value.code == raw.cca2 && r.value.name == raw.commonName
    ensures r.Some? ==> r.value.dialCode != "" && (raw.cca2, r.value.dialCode) in DialCodeTable
    ensures r.Some? ==> r.value.flag == FlagEmoji(raw.cca2)
  {
    var dialCode := DialCode(raw.cca2);
    if dialCode == "" then None
    else Some(Country(raw.cca2, raw.commonName, dialCode, FlagEmoji(raw.cca2)))
  }

  /** The `map` and the `filter` of nulls: every record the table lists, in
      upstream order. */
  function Convert(raws: seq<RawCountry>): (cs: seq<Country>)
    ensures |cs| <= |raws|
  {
    if raws == [] then []
    else
      match ToCountry(raws[0])
      case Some(c) => [c] + Convert(raws[1..])
      case None => Convert(raws[1..])
  }

  lemma {:induction false} ConvertConcat(a: seq<RawCountry>, b: seq<RawCountry>)
    ensures Convert(a + b) == Convert(a) + Convert(b)
  {
    if a == [] {
      assert a + b == b;
    } else {
      assert (a + b)[1..] == a[1..] + b;
      ConvertConcat(a[1..], b);
    }
  }

  /** A country is in the converted list exactly when some upstream record
      the table lists converts to it. */
  lemma {:induction false} ConvertMembers(raws: seq<RawCountry>, c: Country)
    ensures c in Convert(raws) <==> exists raw :: raw in raws && ToCountry(raw) == Some(c)
  {
    if raws != [] {
      ConvertMembers(raws[1..], c);
      assert forall raw :: raw in raws <==> raw == raws[0] || raw in raws[1..];
    }
  }

  /** Every converted country carries a non-empty prefix that the table lists
      for its code, and a flag of two regional indicator symbols. */
  lemma ConvertedCountry(raws: seq<RawCountry>, c: Country)
    requires c in Convert(raws)
    ensures c.dialCode != "" && (c.code, c.dialCode) in DialCodeTable
    ensures |c.code| == 2 && |c.flag| == 2
    ensures forall i :: 0 <= i < 2 ==> IsRegionalIndicator(c.flag[i])
    ensures FlagLetters(c.flag) == c.code
  {
    ConvertMembers(raws, c);
    var raw :| raw in raws && ToCountry(raw) == Some(c);
    ListedEntry(c.code, c.dialCode);
    CapitalsFlag(c.code);
  }

  /** The flag of a two-letter capital code reads back as the code. */
  lemma CapitalsFlag(code: string)
    requires |code| == 2 && IsLatinCapital(code[0]) && IsLatinCapital(code[1])
    ensures |FlagEmoji(code)| == 2
    ensures forall i :: 0 <= i < 2 ==> IsRegionalIndicator(FlagEmoji(code)[i])
    ensures FlagLetters(FlagEmoji(code)) == code
  {
    FlagRoundTrip(code);
    assert Upper(code) == code;
  }

  /** Every pair of the table is well formed. */
  lemma ListedEntry(code: string, dialCode: string)
    requires (code, dialCode) in DialCodeTable
    ensures WellFormedEntry((code, dialCode))
  {
    DialCodeTableWellFormed();
  }

  /** A record is dropped exactly when the table does not list its code. */
  lemma ConvertDrops(raws: seq<RawCountry>, raw: RawCountry)
    requires raw in raws
    ensures (exists c :: c in Convert(raws) && c.code == raw.cca2) <==> Listed(raw.cca2)
  {
    if Listed(raw.cca2) {
      var c := ToCountry(raw).value;
      ConvertMembers(raws, c);
    } else {
      forall c | c in Convert(raws)
        ensures c.code != raw.cca2
      {
        ConvertMembers(raws, c);
      }
    }
  }

  /** The sort comparator read as "may come first": a country with code AE
      comes before every country, no country comes before AE, and the others
      compare by name. `leq(x, y)` stands for `x.localeCompare(y, 'ru') <= 0`. */
  predicate Before(a: Country, b: Country, leq: (string, string) -> bool) {
    a.code == "AE" || (b.code != "AE" && leq(a.name, b.name))
  }

  /** What the locale comparison is taken to be: total and transitive. */
  ghost predicate TotalPreorder(leq: (string, string) -> bool) {
    && (forall x, y :: leq(x, y) || leq(y, x))
    && (forall x, y, z :: leq(x, y) && leq(y, z) ==> leq(x, z))
  }

  ghost predicate Sorted(cs: seq<Country>, leq: (string, string) -> bool) {
    forall i, j :: 0 <= i < j < |cs| ==> Before(cs[i], cs[j], leq)
  }

  /** Places `x` in front of the first element it may come before. */
  function Insert(x: Country, cs: seq<Country>, leq: (string, string) -> bool): (r: seq<Country>)
    ensures multiset(r) == multiset(cs) + multiset{x}
  {
    if cs == [] then [x]
    else if Before(x, cs[0], leq) then [x] + cs
    else
      var t := Insert(x, cs[1..], leq);
      assert cs == [cs[0]] + cs[1..];
      [cs[0]] + t
  }

  /** `Array.prototype.sort` with the comparator above, which is stable:
      countries that compare equal keep their upstream order. */
  function SortCountries(cs: seq<Country>, leq: (string, string) -> bool): (r: seq<Country>)
    ensures multiset(r) == multiset(cs)
  {
    if cs == [] then []
    else
      var t := SortCountries(cs[1..], leq);
      assert cs == [cs[0]] + cs[1..];
      Insert(cs[0], t, leq)
  }

  lemma SortedCons(a: Country, cs: seq<Country>, leq: (string, string) -> bool)
    requires Sorted(cs, leq)
    requires forall c :: c in cs ==> Before(a, c, leq)
    ensures Sorted([a] + cs, leq)
  {
    var r := [a] + cs;
    forall i, j | 0 <= i < j < |r|
      ensures Before(r[i], r[j], leq)
    {
      assert r[j] == cs[j - 1];
      if i > 0 {
        assert r[i] == cs[i - 1];
      }
    }
  }

  lemma {:induction false} InsertSorted(x: Country, cs: seq<Country>, leq: (string, string) -> bool)
    requires TotalPreorder(leq) && Sorted(cs, leq)
    ensures Sorted(Insert(x, cs, leq), leq)
  {
    if cs == [] {
    } else if Before(x, cs[0], leq) {
      forall c | c in cs
        ensures Before(x, c, leq)
      {
        var j :| 0 <= j < |cs| && cs[j] == c;
        if j > 0 {
          assert Before(cs[0], cs[j], leq);
        }
      }
      SortedCons(x, cs, leq);
    } else {
      var t := Insert(x, cs[1..], leq);
      assert Sorted(cs[1..], leq) by {
        forall i, j | 0 <= i < j < |cs[1..]|
          ensures Before(cs[1..][i], cs[1..][j], leq)
        {
          assert cs[1..][i] == cs[i + 1] && cs[1..][j] == cs[j + 1];
        }
      }
      InsertSorted(x, cs[1..], leq);
      forall c | c in t
        ensures Before(cs[0], c, leq)
      {
        assert c in multiset(t);
        if c != x {
          var j :| 1 <= j < |cs| && cs[j] == c;
        }
      }
      SortedCons(cs[0], t, leq);
    }
  }

  /** With a total preorder for names the result is ordered by the
      comparator. */
  lemma {:induction false} SortSorted(cs: seq<Country>, leq: (string, string) -> bool)
    requires TotalPreorder(leq)
    ensures Sorted(SortCountries(cs, leq), leq)
  {
    if cs != [] {
      SortSorted(cs[1..], leq);
      InsertSorted(cs[0], SortCountries(cs[1..], leq), leq);
    }
  }

  predicate HasAE(cs: seq<Country>) {
    exists i :: 0 <= i < |cs| && cs[i].code == "AE"
  }

  /** If AE is among the countries it comes first, whatever the names and
      whatever the locale comparison. */
  lemma {:induction false} SortPutsAEFirst(cs: seq<Country>, leq: (string, string) -> bool)
    requires HasAE(cs)
    ensures SortCountries(cs, leq)[0].code == "AE"
  {
    var t := SortCountries(cs[1..], leq);
    if cs[0].code != "AE" {
      var i :| 0 <= i < |cs| && cs[i].code == "AE";
      assert cs[1..][i - 1] == cs[i];
      SortPutsAEFirst(cs[1..], leq);
      assert !Before(cs[0], t[0], leq);
    }
  }

  /** The search test: the lower-cased name contains the lower-cased term, or
      the prefix contains the term as typed. */
  predicate Matches(c: Country, term: string) {
    Contains(Lower(c.name), Lower(term)) || Contains(c.dialCode, term)
  }

  /** `countries.filter(...)` with the search test, keeping the order. */
  function Filter(cs: seq<Country>, term: string): (r: seq<Country>)
    ensures forall c :: c in r <==> c in cs && Matches(c, term)
  {
    if cs == [] then []
    else if Matches(cs[0], term) then [cs[0]] + Filter(cs[1..], term)
    else Filter(cs[1..], term)
  }

  /** `r` is `s` with some entries removed and the rest in the same order. */
  predicate IsSubsequence(r: seq<Country>, s: seq<Country>) {
    if r == [] then true
    else if s == [] then false
    else if r[0] == s[0] then IsSubsequence(r[1..], s[1..])
    else IsSubsequence(r, s[1..])
  }

  lemma {:induction false} FilterIsSubsequence(cs: seq<Country>, term: string)
    ensures IsSubsequence(Filter(cs, term), cs)
  {
    if cs != [] {
      FilterIsSubsequence(cs[1..], term);
      var r := Filter(cs, term);
      if r != [] && !Matches(cs[0], term) {
        assert r[0] in r;
      }
    }
  }

  lemma {:induction false} FilterSorted(cs: seq<Country>, term: string, leq: (string, string) -> bool)
    requires Sorted(cs, leq)
    ensures Sorted(Filter(cs, term), leq)
  {
    if cs != [] {
      assert Sorted(cs[1..], leq) by {
        forall i, j | 0 <= i < j < |cs[1..]|
          ensures Before(cs[1..][i], cs[1..][j], leq)
        {
          assert cs[1..][i] == cs[i + 1] && cs[1..][j] == cs[j + 1];
        }
      }
      FilterSorted(cs[1..], term, leq);
      if Matches(cs[0], term) {
        forall c | c in Filter(cs[1..], term)
          ensures Before(cs[0], c, leq)
        {
          var j :| 1 <= j < |cs| && cs[j] == c;
          assert Before(cs[0], cs[j], leq);
        }
        SortedCons(cs[0], Filter(cs[1..], term), leq);
      }
    }
  }

  /** The filter applies to the list as a whole only when the term is not
      empty; an empty term returns the sorted list itself. */
  function Search(cs: seq<Country>, term: string): (r: seq<Country>)
    ensures term == "" ==> r == cs
    ensures term != "" ==> forall c :: c in r <==> c in cs && Matches(c, term)
    ensures IsSubsequence(r, cs)
  {
    if term == "" then
      SubsequenceOfItself(cs);
      cs
    else
      FilterIsSubsequence(cs, term);
      Filter(cs, term)
  }

  lemma {:induction false} SubsequenceOfItself(cs: seq<Country>)
    ensures IsSubsequence(cs, cs)
  {
    if cs != [] {
      SubsequenceOfItself(cs[1..]);
    }
  }

  const LoadError := "Ошибка при загрузке стран"

  /** What `GET` answers: the list, or status 500 with the generic error. */
  datatype Response = CountryList(countries: seq<Country>) | LoadFailure(status: int, error: string)

  /** `GET`. `search` is the query parameter, `None` when it is absent;
      `upstream` is the decoded upstream list, `None` when the request failed
      or its status was not ok. */
  function Get(search: Option<string>, upstream: Option<seq<RawCountry>>, leq: (string, string) -> bool): (r: Response)
    ensures upstream.None? <==> r == LoadFailure(500, LoadError)
    ensures upstream.Some? ==> r.CountryList? && IsSubsequence(r.countries, SortCountries(Convert(upstream.value), leq))
    ensures upstream.Some? && search.GetOr("") == "" ==> r.countries == SortCountries(Convert(upstream.value), leq)
  {
    match upstream
    case None => LoadFailure(500, LoadError)
    case Some(raws) =>
      var countries := SortCountries(Convert(raws), leq);
      CountryList(Search(countries, search.GetOr("")))
  }

  /** The list `GET` returns: ordered by the comparator, every entry built
      from an upstream record the table lists and carrying the table's
      prefix, and with a non-empty term exactly the matching ones. */
  lemma GetCountries(search: Option<string>, raws: seq<RawCountry>, leq: (string, string) -> bool, c: Country)
    requires TotalPreorder(leq)
    ensures Sorted(Get(search, Some(raws), leq).countries, leq)
    ensures c in Get(search, Some(raws), leq).countries ==> c.dialCode != "" && (c.code, c.dialCode) in DialCodeTable
    ensures search.GetOr("") == "" ==> (c in Get(search, Some(raws), leq).countries <==> exists raw :: raw in raws && ToCountry(raw) == Some(c))
    ensures search.GetOr("") != "" ==> (c in Get(search, Some(raws), leq).countries <==> (exists raw :: raw in raws && ToCountry(raw) == Some(c)) && Matches(c, search.GetOr("")))
  {
    var sorted := SortCountries(Convert(raws), leq);
    SortSorted(Convert(raws), leq);
    var term := search.GetOr("");
    if term != "" {
      FilterSorted(sorted, term, leq);
    }
    ConvertMembers(raws, c);
    assert c in sorted <==> c in multiset(sorted);
    assert c in Convert(raws) <==> c in multiset(Convert(raws));
    if c in Get(search, Some(raws), leq).countries {
      ConvertedCountry(raws, c);
    }
  }

  /** When AE is listed upstream and survives the search, it heads the
      answer. */
  lemma GetPutsAEFirst(search: Option<string>, raws: seq<RawCountry>, leq: (string, string) -> bool)
    requires TotalPreorder(leq)
    requires HasAE(Get(search, Some(raws), leq).countries)
    ensures Get(search, Some(raws), leq).countries[0].code == "AE"
  {
    var r := Get(search, Some(raws), leq).countries;
    var i :| 0 <= i < |r| && r[i].code == "AE";
    GetCountries(search, raws, leq, r[i]);
    if i > 0 {
      assert Before(r[0], r[i], leq);
    }
  }
}
