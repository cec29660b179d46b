/**
 * The character listing's cache key: every filter entry is rendered as
 * `key-value`, the rendered entries are joined with `.`, and the query key is
 * `["characters", filterKey]`.
 */
module CharacterQuery {

  /** The filter fields the character catalog accepts. */
  datatype FilterField = Page | Status | Species | Name | Gender

  /**
   * The integers a JavaScript number holds exactly (magnitude at most 2^53 - 1); template
   * strings write each of them as its plain decimal digits.
   */
  type SafeInteger = n: int | -9007199254740991 <= n <= 9007199254740991

  /** A filter value: `page` is a number, the others are text; a key may be present with no value. */
  datatype FilterValue = Number(n: SafeInteger) | Text(s: string) | Undefined

  datatype FilterEntry = FilterEntry(field: FilterField, value: FilterValue)

  /** The filter object as its entries, in the order `Object.entries` lists them. */
  type CharacterFilters = seq<FilterEntry>

  const InitialFilters: CharacterFilters := []
  const EntrySeparator: char := '.'
  const QueryName: string := "characters"

  function FieldName(f: FilterField): string {
    match f
    case Page => "page"
    case Status => "status"
    case Species => "species"
    case Name => "name"
    case Gender => "gender"
  }

  predicate IsDigit(c: char) {
    '0' <= c <= '9'
  }

  /** A non-empty string of decimal digits. */
  predicate AllDigits(s: string) {
    |s| >= 1 && forall i :: 0 <= i < |s| ==> IsDigit(s[i])
  }

  /** The number a string of decimal digits denotes, most significant digit first. */
  function DigitsValue(s: string): int
    requires forall i :: 0 <= i < |s| ==> IsDigit(s[i])
  {
    if |s| == 0 then 0 else 10 * DigitsValue(s[..|s| - 1]) + (s[|s| - 1] as int - '0' as int)
  }

  /** The decimal numeral of `n`: digits only, denoting `n`, with no leading zero. */
  function NatToString(n: nat): (s: string)
    ensures |s| >= 1
    ensures forall i :: 0 <= i < |s| ==> IsDigit(s[i])
    ensures DigitsValue(s) == n
    ensures s[0] != '0' || n == 0
  {
    var digit := ['0' + (n % 10) as char];
    if n < 10 then digit
    else
      var high := NatToString(n / 10);
      assert (high + digit)[..|high|] == high;
      high + digit
  }

  /** How a number is written into a template string: its decimal numeral, with `-` when negative. */
  function NumberToString(n: int): (s: string)
    ensures EntrySeparator !in s
    ensures n >= 0 ==> AllDigits(s) && DigitsValue(s) == n && (s[0] != '0' || n == 0)
    ensures n < 0 ==> |s| >= 2 && s[0] == '-' && AllDigits(s[1..]) && DigitsValue(s[1..]) == -n && s[1] != '0'
  {
    if n < 0 then "-" + NatToString(-n) else NatToString(n)
  }

  /** How `${value}` writes a filter value. */
  function RenderValue(v: FilterValue): (r: string)
    ensures v.Number? ==> r == NumberToString(v.n) && |r| >= 1 && EntrySeparator !in r
    ensures v.Text? ==> r == v.s
    ensures v.Undefined? ==> r == "undefined"
  {
    match v
    case Number(n) => NumberToString(n)
    case Text(s) => s
    case Undefined => "undefined"
  }

  /** One entry as `key-value`: the field name, a dash, then the rendered value. */
  function RenderEntry(e: FilterEntry): (r: string)
    ensures |r| == |FieldName(e.field)| + 1 + |RenderValue(e.value)|
    ensures r[..|FieldName(e.field)|] == FieldName(e.field) && r[|FieldName(e.field)|] == '-'
    ensures r[|FieldName(e.field)| + 1..] == RenderValue(e.value)
  {
    FieldName(e.field) + "-" + RenderValue(e.value)
  }

  /** `Array.prototype.join`: the parts with `sep` between neighbours, `""` for no parts. */
  function Join(parts: seq<string>, sep: string): string {
    if |parts| == 0 then ""
    else if |parts| == 1 then parts[0]
    else parts[0] + sep + Join(parts[1..], sep)
  }

  /** `String.prototype.split` on one character: the maximal pieces between separators (`[""]` for `""`). */
  function Split(s: string, sep: char): (r: seq<string>)
    ensures |r| >= 1
  {
    if |s| == 0 then [""]
    else
      var rest := Split(s[1..], sep);
      if s[0] == sep then [""] + rest
      else [[s[0]] + rest[0]] + rest[1..]
  }

  /** The number of occurrences of `c` in `s`. */
  function Occurrences(s: string, c: char): nat {
    if |s| == 0 then 0 else (if s[0] == c then 1 else 0) + Occurrences(s[1..], c)
  }

  lemma {:induction false} SplitWithoutSeparator(x: string, sep: char)
    requires sep !in x
    ensures Split(x, sep) == [x]
  {
    if |x| > 0 {
      SplitWithoutSeparator(x[1..], sep);
      assert [x[0]] + x[1..] == x;
    }
  }

  lemma {:induction false} SplitAfterFirstPart(x: string, sep: char, t: string)
    requires sep !in x
    ensures Split(x + [sep] + t, sep) == [x] + Split(t, sep)
  {
    var s := x + [sep] + t;
    if |x| == 0 {
      assert s[0] == sep && s[1..] == t;
    } else {
      assert s[0] == x[0] && s[1..] == x[1..] + [sep] + t;
      SplitAfterFirstPart(x[1..], sep, t);
      assert [x[0]] + x[1..] == x;
    }
  }

  /** Splitting undoes joining when no part contains the separator (and there is at least one part). */
  lemma {:induction false} SplitJoinRoundTrip(parts: seq<string>, sep: char)
    requires |parts| >= 1
    requires forall i :: 0 <= i < |parts| ==> sep !in parts[i]
    ensures Split(Join(parts, [sep]), sep) == parts
  {
    if |parts| == 1 {
      SplitWithoutSeparator(parts[0], sep);
    } else {
      SplitJoinRoundTrip(parts[1..], sep);
      SplitAfterFirstPart(parts[0], sep, Join(parts[1..], [sep]));
      assert [parts[0]] + parts[1..] == parts;
    }
  }

  lemma {:induction false} OccurrencesConcat(a: string, b: string, c: char)
    ensures Occurrences(a + b, c) == Occurrences(a, c) + Occurrences(b, c)
  {
    if |a| > 0 {
      assert (a + b)[0] == a[0] && (a + b)[1..] == a[1..] + b;
      OccurrencesConcat(a[1..], b, c);
    } else {
      assert a + b == b;
    }
  }

  lemma {:induction false} OccurrencesAbsent(s: string, c: char)
    requires c !in s
    ensures Occurrences(s, c) == 0
  {
    if |s| > 0 {
      OccurrencesAbsent(s[1..], c);
    }
  }

  /** Joining n separator-free parts puts exactly n - 1 separators into the result. */
  lemma {:induction false} JoinSeparatorCount(parts: seq<string>, sep: char)
    requires |parts| >= 1
    requires forall i :: 0 <= i < |parts| ==> sep !in parts[i]
    ensures Occurrences(Join(parts, [sep]), sep) == |parts| - 1
  {
    if |parts| == 1 {
      OccurrencesAbsent(parts[0], sep);
    } else {
      JoinSeparatorCount(parts[1..], sep);
      OccurrencesAbsent(parts[0], sep);
      OccurrencesConcat(parts[0], [sep], sep);
      OccurrencesConcat(parts[0] + [sep], Join(parts[1..], [sep]), sep);
    }
  }

  /** The rendered entries, in entry order. */
  function RenderedEntries(filters: CharacterFilters): (r: seq<string>)
    ensures |r| == |filters|
    ensures forall i :: 0 <= i < |filters| ==> r[i] == RenderEntry(filters[i])
  {
    seq(|filters|, i requires 0 <= i < |filters| => RenderEntry(filters[i]))
  }

  /** `filterKey`: the rendered entries joined with `.`. */
  function FilterKey(filters: CharacterFilters): (r: string)
    ensures filters == [] ==> r == ""
    ensures |filters| == 1 ==> r == RenderEntry(filters[0])
    ensures |filters| >= 1 ==> RenderEntry(filters[0]) <= r
  {
    Join(RenderedEntries(filters), [EntrySeparator])
  }

  /** The query key of the character listing. */
  function QueryKey(filters: CharacterFilters): (key: seq<string>)
    ensures |key| == 2 && key[0] == QueryName && key[1] == FilterKey(filters)
  {
    [QueryName, FilterKey(filters)]
  }

  /** No text value contains the entry separator. */
  predicate SeparatorFree(filters: CharacterFilters) {
    forall i :: 0 <= i < |filters| ==> filters[i].value.Text? ==> EntrySeparator !in filters[i].value.s
  }

  /** The initial filters are empty, so the initial filter key is the empty string. */
  lemma InitialFilterKeyIsEmpty()
    ensures FilterKey(InitialFilters) == ""
    ensures QueryKey(InitialFilters) == [QueryName, ""]
  {
  }

  lemma RenderEntrySeparatorFree(e: FilterEntry)
    requires e.value.Text? ==> EntrySeparator !in e.value.s
    ensures EntrySeparator !in RenderEntry(e)
  {
    assert RenderEntry(e) == FieldName(e.field) + "-" + RenderValue(e.value);
  }

  /**
   * With separator-free values, the filter key lists exactly the rendered entries in
   * order: splitting it on `.` gives them back, and it holds n - 1 separators.
   */
  lemma FilterKeyListsEntries(filters: CharacterFilters)
    requires |filters| >= 1 && SeparatorFree(filters)
    ensures Split(FilterKey(filters), EntrySeparator) == RenderedEntries(filters)
    ensures Occurrences(FilterKey(filters), EntrySeparator) == |filters| - 1
  {
    var parts := RenderedEntries(filters);
    forall i | 0 <= i < |parts| ensures EntrySeparator !in parts[i] {
      RenderEntrySeparatorFree(filters[i]);
    }
    SplitJoinRoundTrip(parts, EntrySeparator);
    JoinSeparatorCount(parts, EntrySeparator);
  }

  /** Two filter states share a cache entry exactly when their filter keys are equal. */
  lemma QueryKeyIdentifiesFilterKey(f: CharacterFilters, g: CharacterFilters)
    ensures QueryKey(f) == QueryKey(g) <==> FilterKey(f) == FilterKey(g)
  {
  }

  /**
   * The joined key is ambiguous: a text value holding `.` reads like an entry boundary,
   * so two different filter states share one query key and hence one cache entry.
   */
  lemma FilterKeyCollides()
    ensures var one := [FilterEntry(Name, Text("a.status-b"))];
      var two := [FilterEntry(Name, Text("a")), FilterEntry(Status, Text("b"))];
      && WellTyped(one) && WellTyped(two)
      && one != two
      && QueryKey(one) == QueryKey(two)
  {
    var one := [FilterEntry(Name, Text("a.status-b"))];
    var two := [FilterEntry(Name, Text("a")), FilterEntry(Status, Text("b"))];
    var parts := RenderedEntries(two);
    assert parts == [RenderEntry(two[0]), RenderEntry(two[1])];
    JoinTwo(parts[0], parts[1], [EntrySeparator]);
    assert RenderEntry(two[0]) == "name" + "-" + "a" == "name-a";
    assert RenderEntry(two[1]) == "status" + "-" + "b" == "status-b";
    assert RenderEntry(one[0]) == "name" + "-" + "a.status-b" == "name-a.status-b";
    assert FilterKey(two) == "name-a" + "." + "status-b" == "name-a.status-b" == FilterKey(one);
    assert QueryKey(one) == [QueryName, FilterKey(one)] == QueryKey(two);
  }

  lemma JoinTwo(x: string, y: string, sep: string)
    ensures Join([x, y], sep) == x + sep + y
  {
    assert [x, y][1..] == [y];
  }

  /** Every value is present and of its field's declared type: a number for `page`, text otherwise. */
  predicate WellTyped(filters: CharacterFilters) {
    forall i :: 0 <= i < |filters| ==> EntryWellTyped(filters[i])
  }

  predicate EntryWellTyped(e: FilterEntry) {
    if e.field == Page then e.value.Number? else e.value.Text?
  }

  /**
   * A query key that keeps each rendered entry as its own element,
   * `['characters', ...filterKeys]`, so that no value can be mistaken for an entry boundary.
   */
  function SpreadQueryKey(filters: CharacterFilters): (key: seq<string>)
    ensures |key| == |filters| + 1 && key[0] == QueryName
    ensures forall i :: 0 <= i < |filters| ==> key[i + 1] == RenderEntry(filters[i])
  {
    var entries := RenderedEntries(filters);
    assert forall i :: 0 <= i < |filters| ==> ([QueryName] + entries)[i + 1] == entries[i];
    [QueryName] + entries
  }

  /** Distinct well-typed filter states always get distinct spread keys, and equal ones equal keys. */
  lemma SpreadQueryKeyIdentifiesFilters(f: CharacterFilters, g: CharacterFilters)
    requires WellTyped(f) && WellTyped(g)
    ensures SpreadQueryKey(f) == SpreadQueryKey(g) <==> f == g
  {
    if SpreadQueryKey(f) == SpreadQueryKey(g) {
      forall i | 0 <= i < |f| ensures f[i] == g[i] {
        assert SpreadQueryKey(f)[i + 1] == SpreadQueryKey(g)[i + 1];
        RenderEntryInjective(f[i], g[i]);
      }
    }
  }

  lemma FieldNameHasNoDash(f: FilterField)
    ensures '-' !in FieldName(f)
  {
  }

  /** A well-typed entry can be read back from its rendering. */
  lemma RenderEntryInjective(e1: FilterEntry, e2: FilterEntry)
    requires EntryWellTyped(e1) && EntryWellTyped(e2)
    requires RenderEntry(e1) == RenderEntry(e2)
    ensures e1 == e2
  {
    var s := RenderEntry(e1);
    var a, b := FieldName(e1.field), FieldName(e2.field);
    FieldNameHasNoDash(e1.field);
    FieldNameHasNoDash(e2.field);
    assert a == s[..|a|] == b;
    assert e1.field == e2.field;
    assert RenderValue(e1.value) == s[|a| + 1..] == RenderValue(e2.value);
    if e1.field == Page {
      NumberToStringInjective(e1.value.n, e2.value.n);
    }
  }

  lemma NumberToStringSign(n: int)
    ensures |NumberToString(n)| >= 1
    ensures NumberToString(n)[0] == '-' <==> n < 0
  {
    if n >= 0 {
      assert IsDigit(NatToString(n)[0]);
    }
  }

  lemma NumberToStringInjective(m: int, n: int)
    requires NumberToString(m) == NumberToString(n)
    ensures m == n
  {
    var s := NumberToString(m);
    if m < 0 && n < 0 {
      assert NatToString(-m) == s[1..] == NatToString(-n);
      NatToStringInjective(-m, -n);
    } else {
      NumberToStringSign(m);
      NumberToStringSign(n);
      NatToStringInjective(m, n);
    }
  }

  lemma {:induction false} NatToStringInjective(a: nat, b: nat)
    requires NatToString(a) == NatToString(b)
    ensures a == b
  {
    var s := NatToString(a);
    assert s[|s| - 1] == '0' + (a % 10) as char;
    assert s[|s| - 1] == '0' + (b % 10) as char;
    assert a % 10 == b % 10;
    if a >= 10 && b >= 10 {
      assert NatToString(a / 10) == s[..|s| - 1] == NatToString(b / 10);
      NatToStringInjective(a / 10, b / 10);
    }
  }
}
