/**
 * The client's form state and its pure updaters: `handleInputChange`,
 * `handleArrayChange`, and the keyword field, which shows
 * `keywords.join(', ')` and reads its input back with
 * `split(',')`, `trim()` and a filter that drops empty items.
 */
module Form {
  import opened Text

  /** The fields of `formData`. */
  datatype Field = Domain | Keywords | FileTypes | Vulnerability | Cms | Auth | Errors

  /** What a field holds: the domain is text, every other field a list. */
  datatype Value = Str(text: string) | Items(items: seq<string>)

  /** The component's `formData` record. */
  datatype FormData = FormData(
    domain: string,
    keywords: seq<string>,
    fileTypes: seq<string>,
    vulnerability: seq<string>,
    cms: seq<string>,
    auth: seq<string>,
    errors: seq<string>)

  /** The initial `formData`: an empty domain and empty lists. */
  const EmptyForm: FormData := FormData("", [], [], [], [], [], [])

  /** `formData[field]`. */
  function Get(f: FormData, field: Field): Value {
    match field
    case Domain => Str(f.domain)
    case Keywords => Items(f.keywords)
    case FileTypes => Items(f.fileTypes)
    case Vulnerability => Items(f.vulnerability)
    case Cms => Items(f.cms)
    case Auth => Items(f.auth)
    case Errors => Items(f.errors)
  }

  /** The kind of value the form puts in `field`. */
  predicate Fits(field: Field, v: Value) {
    (field == Domain) == v.Str?
  }

  /** `handleInputChange(field, value)`: `{...prev, [field]: value}`. */
  function HandleInputChange(prev: FormData, field: Field, value: Value): (r: FormData)
    requires Fits(field, value)
    ensures Get(r, field) == value
    ensures forall g :: g != field ==> Get(r, g) == Get(prev, g)
  {
    match field
    case Domain => prev.(domain := value.text)
    case Keywords => prev.(keywords := value.items)
    case FileTypes => prev.(fileTypes := value.items)
    case Vulnerability => prev.(vulnerability := value.items)
    case Cms => prev.(cms := value.items)
    case Auth => prev.(auth := value.items)
    case Errors => prev.(errors := value.items)
  }

  /** `list.filter(item => item !== v)`. */
  function Without(s: seq<string>, v: string): seq<string> {
    if s == [] then []
    else if s[0] == v then Without(s[1..], v)
    else [s[0]] + Without(s[1..], v)
  }

  /** The filter removes every occurrence of `v` and nothing else. */
  lemma {:induction false} WithoutRemovesAll(s: seq<string>, v: string)
    ensures v !in Without(s, v)
    ensures multiset(Without(s, v)) == multiset(s)[v := 0]
  {
    if s != [] {
      WithoutRemovesAll(s[1..], v);
      assert s == [s[0]] + s[1..];
    }
  }

  /** Filtering keeps relative order: it works on each part of a list separately. */
  lemma {:induction false} WithoutConcat(a: seq<string>, b: seq<string>, v: string)
    ensures Without(a + b, v) == Without(a, v) + Without(b, v)
  {
    if a == [] {
      assert a + b == b;
    } else {
      var head := if a[0] == v then [] else [a[0]];
      calc {
        Without(a + b, v);
        { assert (a + b)[0] == a[0] && (a + b)[1..] == a[1..] + b; }
        head + Without(a[1..] + b, v);
        { WithoutConcat(a[1..], b, v); }
        head + (Without(a[1..], v) + Without(b, v));
        (head + Without(a[1..], v)) + Without(b, v);
        Without(a, v) + Without(b, v);
      }
    }
  }

  /** A list without `v` passes the filter unchanged. */
  lemma {:induction false} WithoutAbsent(s: seq<string>, v: string)
    requires v !in s
    ensures Without(s, v) == s
  {
    if s != [] {
      WithoutAbsent(s[1..], v);
      assert s == [s[0]] + s[1..];
    }
  }

  /**
   * `handleArrayChange(field, value, checked)`: ticking appends `value` even
   * if it is already there; unticking filters out every occurrence.
   */
  function HandleArrayChange(prev: FormData, field: Field, value: string, checked: bool): (r: FormData)
    requires field != Domain
    ensures checked ==> Get(r, field).items == Get(prev, field).items + [value]
    ensures !checked ==> Get(r, field).items == Without(Get(prev, field).items, value)
    ensures !checked ==> value !in Get(r, field).items
    ensures !checked ==> multiset(Get(r, field).items) == multiset(Get(prev, field).items)[value := 0]
    ensures forall g :: g != field ==> Get(r, g) == Get(prev, g)
  {
    var items := Get(prev, field).items;
    WithoutRemovesAll(items, value);
    HandleInputChange(prev, field, Items(if checked then items + [value] else Without(items, value)))
  }

  /** Ticking then unticking a box that was clear leaves the form as it was. */
  lemma CheckThenUncheck(prev: FormData, field: Field, value: string)
    requires field != Domain
    requires value !in Get(prev, field).items
    ensures HandleArrayChange(HandleArrayChange(prev, field, value, true), field, value, false) == prev
  {
    var items := Get(prev, field).items;
    WithoutConcat(items, [value], value);
    WithoutAbsent(items, value);
    assert Without([value], value) == [];
  }

  // The keyword field.

  /** `map(k => k.trim())`. */
  function TrimAll(pieces: seq<string>): seq<string> {
    if pieces == [] then [] else [Trim(pieces[0])] + TrimAll(pieces[1..])
  }

  /** `filter(k => k)`: drop the empty strings. */
  function DropEmpty(pieces: seq<string>): seq<string> {
    if pieces == [] then []
    else if pieces[0] == "" then DropEmpty(pieces[1..])
    else [pieces[0]] + DropEmpty(pieces[1..])
  }

  /** What the keyword field shows: `keywords.join(', ')`. */
  function ShowKeywords(keywords: seq<string>): string {
    Join(keywords, ", ")
  }

  /** What the keyword field stores from its input. */
  function ParseKeywords(input: string): seq<string> {
    DropEmpty(TrimAll(Split(input, ',')))
  }

  /** A keyword that survives a show-and-parse: non-empty, trimmed, comma-free. */
  predicate GoodKeyword(k: string) {
    k != "" && Trimmed(k) && ',' !in k
  }

  /** Trimming comma-free pieces and dropping the empty ones leaves only good keywords. */
  lemma {:induction false} CleanedPiecesAreGood(pieces: seq<string>)
    requires forall i :: 0 <= i < |pieces| ==> ',' !in pieces[i]
    ensures forall i :: 0 <= i < |DropEmpty(TrimAll(pieces))| ==> GoodKeyword(DropEmpty(TrimAll(pieces))[i])
  {
    if pieces != [] {
      var k := Trim(pieces[0]);
      var rest := DropEmpty(TrimAll(pieces[1..]));
      CleanedPiecesAreGood(pieces[1..]);
      TrimSpec(pieces[0]);
      if ',' in k {
        TrimSubset(pieces[0], ',');
        assert false;
      }
      assert TrimAll(pieces) == [k] + TrimAll(pieces[1..]);
      assert DropEmpty(TrimAll(pieces)) == (if k == "" then [] else [k]) + rest;
    }
  }

  /** Every parsed keyword is non-empty, has no whitespace at either end and holds no comma. */
  lemma ParsedKeywordsAreGood(input: string)
    ensures forall i :: 0 <= i < |ParseKeywords(input)| ==> GoodKeyword(ParseKeywords(input)[i])
  {
    SplitPiecesLackSeparator(input, ',');
    CleanedPiecesAreGood(Split(input, ','));
  }

  /** Trimming works item by item. */
  lemma {:induction false} TrimAllConcat(a: seq<string>, b: seq<string>)
    ensures TrimAll(a + b) == TrimAll(a) + TrimAll(b)
  {
    if a == [] {
      assert a + b == b;
    } else {
      calc {
        TrimAll(a + b);
        { assert (a + b)[0] == a[0] && (a + b)[1..] == a[1..] + b; }
        [Trim(a[0])] + TrimAll(a[1..] + b);
        { TrimAllConcat(a[1..], b); }
        [Trim(a[0])] + (TrimAll(a[1..]) + TrimAll(b));
        ([Trim(a[0])] + TrimAll(a[1..])) + TrimAll(b);
        TrimAll(a) + TrimAll(b);
      }
    }
  }

  /** Dropping empties keeps the order of what remains. */
  lemma {:induction false} DropEmptyConcat(a: seq<string>, b: seq<string>)
    ensures DropEmpty(a + b) == DropEmpty(a) + DropEmpty(b)
  {
    if a == [] {
      assert a + b == b;
    } else {
      var head := if a[0] == "" then [] else [a[0]];
      calc {
        DropEmpty(a + b);
        { assert (a + b)[0] == a[0] && (a + b)[1..] == a[1..] + b; }
        head + DropEmpty(a[1..] + b);
        { DropEmptyConcat(a[1..], b); }
        head + (DropEmpty(a[1..]) + DropEmpty(b));
        (head + DropEmpty(a[1..])) + DropEmpty(b);
        DropEmpty(a) + DropEmpty(b);
      }
    }
  }

  /**
   * Parsing keeps input order: the keywords of the text before a comma come
   * first, then those after it.
   */
  lemma ParseConcat(a: string, b: string)
    ensures ParseKeywords(a + "," + b) == ParseKeywords(a) + ParseKeywords(b)
  {
    SplitConcat(a, b, ',');
    TrimAllConcat(Split(a, ','), Split(b, ','));
    DropEmptyConcat(TrimAll(Split(a, ',')), TrimAll(Split(b, ',')));
  }

  /** A space in front of the input changes nothing: it is trimmed away. */
  lemma ParseLeadingSpace(s: string)
    ensures ParseKeywords(" " + s) == ParseKeywords(s)
  {
    var pieces := Split(s, ',');
    assert " " + s == [' '] + s;
    SplitPrepend(' ', s, ',');
    TrimLeadingSpace(' ', pieces[0]);
    calc {
      TrimAll(Split(" " + s, ','));
      TrimAll([" " + pieces[0]] + pieces[1..]);
      [Trim(" " + pieces[0])] + TrimAll(pieces[1..]);
      [Trim(pieces[0])] + TrimAll(pieces[1..]);
      TrimAll(pieces);
    }
  }

  /** An empty field stores no keywords. */
  lemma ParseEmpty()
    ensures ParseKeywords("") == []
  {
    assert Split("", ',') == [""];
    assert [""][1..] == [];
    assert TrimAll([""]) == [""];
  }

  /** A good keyword typed alone parses to itself. */
  lemma ParseSingle(k: string)
    requires GoodKeyword(k)
    ensures ParseKeywords(k) == [k]
  {
    SplitNoSeparator(k, ',');
    TrimTrimmed(k);
    assert [k][1..] == [];
    assert TrimAll([k]) == [k] + TrimAll([]);
    assert DropEmpty([k]) == [k] + DropEmpty([]);
  }

  /**
   * Round trip of the keyword field: parsing what the field shows gives the
   * keywords back exactly when every keyword is non-empty, trimmed and
   * comma-free.
   */
  lemma {:induction false} ShowParseRoundTrip(keywords: seq<string>)
    ensures ParseKeywords(ShowKeywords(keywords)) == keywords
            <==> forall i :: 0 <= i < |keywords| ==> GoodKeyword(keywords[i])
  {
    if forall i :: 0 <= i < |keywords| ==> GoodKeyword(keywords[i]) {
      ShowThenParse(keywords);
    } else {
      ParsedKeywordsAreGood(ShowKeywords(keywords));
    }
  }

  /** The forward half of the round trip, by induction on the list. */
  lemma {:induction false} ShowThenParse(keywords: seq<string>)
    requires forall i :: 0 <= i < |keywords| ==> GoodKeyword(keywords[i])
    ensures ParseKeywords(ShowKeywords(keywords)) == keywords
  {
    if |keywords| == 0 {
      ParseEmpty();
    } else if |keywords| == 1 {
      ParseSingle(keywords[0]);
    } else if |keywords| > 1 {
      var k, rest := keywords[0], keywords[1..];
      ShowThenParse(rest);
      assert ShowKeywords(keywords) == k + "," + (" " + ShowKeywords(rest));
      ParseConcat(k, " " + ShowKeywords(rest));
      ParseLeadingSpace(ShowKeywords(rest));
      ParseSingle(k);
    }
  }
}
