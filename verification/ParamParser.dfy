/**
 The `--params` parser of internal/config/config.go: comma-separated
 `workload.key=value` pairs. A string is a sequence of code points here, as it
 is for Go's TrimSpace; every delimiter is ASCII.
 */
module ParamParser {
  import opened Options

  // ---------------------------------------------------------------------
  // The string operations the parser relies on
  // ---------------------------------------------------------------------

  /** unicode.IsSpace: the White_Space property. */
  predicate IsSpace(c: char) {
    || '\t' <= c <= '\r'
    || c in {' ', '\U{85}', '\U{A0}', '\U{1680}', '\U{2028}', '\U{2029}', '\U{202F}', '\U{205F}', '\U{3000}'}
    || '\U{2000}' <= c <= '\U{200A}'
  }

  predicate Blank(s: string) { forall c <- s :: IsSpace(c) }

  function TrimLeft(s: string): (t: string)
    ensures t == "" || !IsSpace(t[0])
    ensures |t| <= |s| && t == s[|s| - |t|..] && Blank(s[..|s| - |t|])
  {
    if s != "" && IsSpace(s[0]) then TrimLeft(s[1..]) else s
  }

  function TrimRight(s: string): (t: string)
    ensures t == "" || !IsSpace(t[|t| - 1])
    ensures t <= s && Blank(s[|t|..])
  {
    if s != "" && IsSpace(s[|s| - 1]) then TrimRight(s[..|s| - 1]) else s
  }

  function TrimSpace(s: string): (t: string)
    ensures t == "" || (!IsSpace(t[0]) && !IsSpace(t[|t| - 1]))
    ensures forall c <- t :: c in s
  {
    TrimRight(TrimLeft(s))
  }

  predicate Trimmed(s: string) {
    s == "" || (!IsSpace(s[0]) && !IsSpace(s[|s| - 1]))
  }

  lemma TrimmedIsFixed(s: string)
    requires Trimmed(s)
    ensures TrimSpace(s) == s
  {
  }

  lemma CutOffLeft(s: string)
    ensures s == s[..|s| - |TrimLeft(s)|] + TrimLeft(s) && Blank(s[..|s| - |TrimLeft(s)|])
  {
    hide *;
  }

  lemma CutOffRight(s: string)
    ensures s == TrimRight(s) + s[|TrimRight(s)|..] && Blank(s[|TrimRight(s)|..])
  {
    hide *;
  }

  lemma TrimmedTwice(s: string)
    ensures TrimSpace(s) == TrimRight(TrimLeft(s))
  {
    hide TrimLeft, TrimRight, IsSpace;
  }

  /** Every text is a trimmed one between white space, and trimming finds it. */
  lemma Padding(s: string) returns (u: string, v: string)
    ensures Blank(u) && Blank(v) && s == u + (TrimSpace(s) + v)
  {
    hide *;
    var t := TrimLeft(s);
    u, v := s[..|s| - |t|], t[|TrimRight(t)|..];
    TrimmedTwice(s);
    CutOffLeft(s);
    CutOffRight(t);
  }

  lemma {:induction false} LeftPadding(u: string, s: string)
    requires Blank(u)
    ensures TrimLeft(u + s) == TrimLeft(s)
  {
    if u == "" {
      assert u + s == s;
    } else {
      assert (u + s)[0] == u[0] && (u + s)[1..] == u[1..] + s;
      LeftPadding(u[1..], s);
    }
  }

  lemma {:induction false} RightPadding(s: string, v: string)
    requires Blank(v)
    ensures TrimRight(s + v) == TrimRight(s)
  {
    if v == "" {
      assert s + v == s;
    } else {
      assert (s + v)[..|s + v| - 1] == s + v[..|v| - 1];
      RightPadding(s, v[..|v| - 1]);
    }
  }

  lemma {:induction false} TrimLeftBeforeText(s: string, v: string)
    requires Blank(v)
    ensures TrimLeft(s + v) == if TrimLeft(s) == "" then "" else TrimLeft(s) + v
  {
    if s == "" {
      LeftPadding(v, "");
      assert s + v == v && v + "" == v;
    } else if IsSpace(s[0]) {
      assert (s + v)[1..] == s[1..] + v;
      TrimLeftBeforeText(s[1..], v);
    }
  }

  lemma MorePadding(u: string, s: string, v: string)
    requires Blank(u) && Blank(v)
    ensures TrimSpace(u + (s + v)) == TrimSpace(s)
  {
    hide IsSpace;
    LeftPadding(u, s + v);
    TrimLeftBeforeText(s, v);
    RightPadding(TrimLeft(s), v);
  }

  /** Trimming takes away the white space around a text, all of it, and nothing else. */
  lemma TrimmingIsExact(u: string, t: string, v: string)
    requires Blank(u) && Trimmed(t) && Blank(v)
    ensures TrimSpace(u + (t + v)) == t
  {
    MorePadding(u, t, v);
    TrimmedIsFixed(t);
  }

  /** strings.Split on one separator character: always at least one segment. */
  function Split(s: string, sep: char): (segs: seq<string>)
    ensures segs != []
    ensures forall seg <- segs :: sep !in seg
  {
    if s == "" then [""]
    else
      var rest := Split(s[1..], sep);
      if s[0] == sep then [""] + rest else [[s[0]] + rest[0]] + rest[1..]
  }

  function Join(segs: seq<string>, sep: char): string {
    if segs == [] then "" else if |segs| == 1 then segs[0] else segs[0] + [sep] + Join(segs[1..], sep)
  }

  lemma {:induction false} SplitOfSum(u: string, s: string, sep: char)
    requires sep !in u
    ensures Split(u + s, sep) == [u + Split(s, sep)[0]] + Split(s, sep)[1..]
  {
    if u == "" {
      assert u + s == s && u + Split(s, sep)[0] == Split(s, sep)[0];
    } else {
      assert (u + s)[1..] == u[1..] + s;
      SplitOfSum(u[1..], s, sep);
      assert (u + s)[0] == u[0] && u[0] in u;
      assert [u[0]] + (u[1..] + Split(s, sep)[0]) == u + Split(s, sep)[0];
    }
  }

  lemma {:induction false} SplitUndoesJoin(segs: seq<string>, sep: char)
    requires segs != [] && forall seg <- segs :: sep !in seg
    ensures Split(Join(segs, sep), sep) == segs
  {
    if |segs| == 1 {
      SplitOfSum(segs[0], "", sep);
      assert segs[0] + "" == segs[0];
    } else {
      var rest := Join(segs[1..], sep);
      SplitUndoesJoin(segs[1..], sep);
      assert ([sep] + rest)[1..] == rest;
      SplitOfSum(segs[0], [sep] + rest, sep);
      assert segs[0] + [sep] + rest == segs[0] + ([sep] + rest);
      assert Split([sep] + rest, sep) == [""] + segs[1..];
      assert segs[0] + "" == segs[0];
      assert segs == [segs[0]] + segs[1..];
    }
  }

  datatype Parts = Parts(before: string, after: string, found: bool)

  /** strings.Cut at the first occurrence of one character. */
  function Cut(s: string, sep: char): (p: Parts)
    ensures sep !in p.before
    ensures s == if p.found then p.before + [sep] + p.after else p.before
  {
    if s == "" then Parts("", "", false)
    else if s[0] == sep then Parts("", s[1..], true)
    else
      var p := Cut(s[1..], sep);
      assert s == [s[0]] + s[1..];
      Parts([s[0]] + p.before, p.after, p.found)
  }

  lemma {:induction false} CutAtFirst(u: string, v: string, sep: char)
    requires sep !in u
    ensures Cut(u + [sep] + v, sep) == Parts(u, v, true)
  {
    var s := u + [sep] + v;
    if u == "" {
      assert s[1..] == v;
    } else {
      assert s[1..] == u[1..] + [sep] + v;
      CutAtFirst(u[1..], v, sep);
    }
  }

  // ---------------------------------------------------------------------
  // ParseParams
  // ---------------------------------------------------------------------

  datatype ParseError =
    | MissingWorkload(pair: string)
    | EmptyWorkload(pair: string)
    | MissingEquals(pair: string)
    | EmptyKey(pair: string)

  datatype Result<+T> = Ok(value: T) | Err(error: ParseError)

  datatype Entry = Entry(workload: string, key: string, value: string)

  type Params = map<string, map<string, string>>

  /** One trimmed, non-empty segment. */
  function ParsePair(pair: string): Result<Entry> {
    var byDot := Cut(pair, '.');
    if !byDot.found then Err(MissingWorkload(pair))
    else if byDot.before == "" then Err(EmptyWorkload(pair))
    else
      var byEq := Cut(byDot.after, '=');
      if !byEq.found then Err(MissingEquals(pair))
      else if byEq.before == "" then Err(EmptyKey(pair))
      else Ok(Entry(byDot.before, byEq.before, byEq.after))
  }

  function Insert(m: Params, e: Entry): Params {
    m[e.workload := (if e.workload in m then m[e.workload] else map[])[e.key := e.value]]
  }

  function ParseSegments(segs: seq<string>, m: Params): Result<Params> {
    if segs == [] then Ok(m)
    else
      var pair := TrimSpace(segs[0]);
      if pair == "" then ParseSegments(segs[1..], m)
      else match ParsePair(pair)
        case Err(error) => Err(error)
        case Ok(e) => ParseSegments(segs[1..], Insert(m, e))
  }

  function Parsed(raw: string): Result<Params> {
    if TrimSpace(raw) == "" then Ok(map[]) else ParseSegments(Split(TrimSpace(raw), ','), map[])
  }

  method ParseParams(raw: string) returns (r: Result<Params>)
    ensures r == Parsed(raw)
    ensures r.Ok? ==> LegalParams(r.value)
  {
    OnlyLegalParamsAreParsed(raw);
    hide LegalParams, Cut, Split, TrimSpace;
    var trimmed := TrimSpace(raw);
    if trimmed == "" {
      return Ok(map[]);
    }
    var result: Params := map[];
    var segs := Split(trimmed, ',');
    assert segs[0..] == segs;
    for n := 0 to |segs|
      invariant ParseSegments(segs[n..], result) == ParseSegments(segs, map[])
    {
      assert segs[n..][1..] == segs[n + 1..];
      var pair := TrimSpace(segs[n]);
      if pair == "" {
        continue;
      }
      var byDot := Cut(pair, '.');
      if !byDot.found {
        return Err(MissingWorkload(pair));
      }
      if byDot.before == "" {
        return Err(EmptyWorkload(pair));
      }
      var byEq := Cut(byDot.after, '=');
      if !byEq.found {
        return Err(MissingEquals(pair));
      }
      if byEq.before == "" {
        return Err(EmptyKey(pair));
      }
      ghost var m := result;
      if byDot.before !in result {
        result := result[byDot.before := map[]];
      }
      result := result[byDot.before := result[byDot.before][byEq.before := byEq.after]];
      assert result == Insert(m, Entry(byDot.before, byEq.before, byEq.after));
    }
    return Ok(result);
  }

  // ---------------------------------------------------------------------
  // The printer, and what the parser does to its output
  // ---------------------------------------------------------------------

  function PrintEntry(e: Entry): string {
    e.workload + "." + e.key + "=" + e.value
  }

  function PrintAll(es: seq<Entry>): seq<string> {
    if es == [] then [] else [PrintEntry(es[0])] + PrintAll(es[1..])
  }

  function Print(es: seq<Entry>): string {
    Join(PrintAll(es), ',')
  }

  predicate Legal(e: Entry) {
    && e.workload != "" && '.' !in e.workload && ',' !in e.workload && !IsSpace(e.workload[0])
    && e.key != "" && '=' !in e.key && ',' !in e.key
    && ',' !in e.value && (e.value == "" || !IsSpace(e.value[|e.value| - 1]))
  }

  predicate Holds(m: Params, e: Entry) {
    e.workload in m && e.key in m[e.workload] && m[e.workload][e.key] == e.value
  }

  ghost predicate LegalParams(m: Params) {
    && (forall workload <- m :: m[workload] != map[])
    && (forall e: Entry :: Holds(m, e) ==> Legal(e))
  }

  /** `es` lists the entries of `m`, in any order. */
  ghost predicate Enumerates(es: seq<Entry>, m: Params) {
    forall e :: e in es <==> Holds(m, e)
  }

  /** Parsing the printed form gives the map back exactly when the map is legal, whatever the order. */
  lemma RoundTrip(es: seq<Entry>, m: Params)
    requires Enumerates(es, m)
    ensures Parsed(Print(es)) == Ok(m) <==> LegalParams(m)
  {
    if LegalParams(m) {
      LegalSurvives(es, m);
    } else {
      OnlyLegalParamsAreParsed(Print(es));
    }
  }

  function InsertAll(m: Params, es: seq<Entry>): Params
    decreases |es|
  {
    if es == [] then m else InsertAll(Insert(m, es[0]), es[1..])
  }

  lemma LegalSurvives(es: seq<Entry>, m: Params)
    requires Enumerates(es, m) && LegalParams(m)
    ensures Parsed(Print(es)) == Ok(m)
  {
    InsertsRebuild(es, map[], m);
    BarePairsParse(es);
  }

  lemma PrintedParts(e: Entry)
    ensures PrintEntry(e) == e.workload + ['.'] + (e.key + ['='] + e.value)
  {
  }

  lemma PairIsCut(e: Entry)
    requires Legal(e)
    ensures ParsePair(PrintEntry(e)) == Ok(e)
  {
    PrintedParts(e);
    CutAtFirst(e.workload, e.key + ['='] + e.value, '.');
    CutAtFirst(e.key, e.value, '=');
    hide PrintEntry, Cut, IsSpace;
  }

  lemma PairIsTrimmed(e: Entry)
    requires Legal(e)
    ensures PrintEntry(e) != "" && Trimmed(PrintEntry(e))
  {
    var s := PrintEntry(e);
    assert s[0] == e.workload[0];
    assert s[|s| - 1] == if e.value == "" then '=' else e.value[|e.value| - 1];
  }

  lemma PairParses(e: Entry)
    requires Legal(e)
    ensures PrintEntry(e) != "" && Trimmed(PrintEntry(e)) && ',' !in PrintEntry(e)
    ensures ParsePair(PrintEntry(e)) == Ok(e)
  {
    PairIsTrimmed(e);
    PairIsCut(e);
    PrintedParts(e);
    hide PrintEntry, ParsePair, Trimmed, IsSpace;
  }

  lemma {:induction false} SegmentsParse(es: seq<Entry>, m: Params)
    requires forall e <- es :: Legal(e)
    ensures ParseSegments(PrintAll(es), m) == Ok(InsertAll(m, es))
  {
    if es != [] {
      PairParses(es[0]);
      TrimmedIsFixed(PrintEntry(es[0]));
      SegmentsParse(es[1..], Insert(m, es[0]));
    }
  }

  lemma {:induction false} PrintedHasNoComma(es: seq<Entry>, seg: string)
    requires (forall e <- es :: Legal(e)) && seg in PrintAll(es)
    ensures ',' !in seg
  {
    if seg == PrintEntry(es[0]) {
      PairParses(es[0]);
    } else {
      PrintedHasNoComma(es[1..], seg);
    }
  }

  /** Inserting the entries of `m` that `acc` lacks completes `acc` to `m`. */
  lemma {:induction false} InsertsRebuild(es: seq<Entry>, acc: Params, m: Params)
    requires forall workload <- m :: m[workload] != map[]
    requires forall workload <- acc :: acc[workload] != map[]
    requires forall e :: Holds(acc, e) || e in es <==> Holds(m, e)
    ensures InsertAll(acc, es) == m
  {
    if es == [] {
      SameEntries(acc, m);
    } else {
      var next := Insert(acc, es[0]);
      assert Holds(m, es[0]);
      forall e ensures Holds(next, e) || e in es[1..] <==> Holds(m, e) {
        if e.workload == es[0].workload && e.key == es[0].key {
          assert Holds(next, e) <==> e == es[0];
          assert e in es[1..] ==> Holds(m, e);
        } else {
          assert Holds(next, e) <==> Holds(acc, e);
        }
      }
      InsertsRebuild(es[1..], next, m);
    }
  }

  lemma SameEntries(m: Params, m': Params)
    requires forall workload <- m :: m[workload] != map[]
    requires forall workload <- m' :: m'[workload] != map[]
    requires forall e :: Holds(m, e) <==> Holds(m', e)
    ensures m == m'
  {
    OneSided(m, m');
    OneSided(m', m);
  }

  lemma OneSided(m: Params, m': Params)
    requires forall workload <- m :: m[workload] != map[]
    requires forall e :: Holds(m, e) <==> Holds(m', e)
    ensures forall workload <- m :: workload in m' && m'[workload] == m[workload]
  {
    forall workload <- m ensures workload in m' && m'[workload] == m[workload] {
      var key :| key in m[workload];
      assert Holds(m', Entry(workload, key, m[workload][key]));
      forall k | k in m[workload] ensures k in m'[workload] && m'[workload][k] == m[workload][k] {
        assert Holds(m', Entry(workload, k, m[workload][k]));
      }
      forall k | k in m'[workload] ensures k in m[workload] {
        assert Holds(m, Entry(workload, k, m'[workload][k]));
      }
    }
  }

  // ---------------------------------------------------------------------
  // The parser never returns anything else
  // ---------------------------------------------------------------------

  lemma OnlyLegalParamsAreParsed(raw: string)
    ensures Parsed(raw).Ok? ==> LegalParams(Parsed(raw).value)
  {
    if TrimSpace(raw) != "" {
      SegmentsGiveLegal(Split(TrimSpace(raw), ','), map[]);
    }
  }

  lemma {:induction false} SegmentsGiveLegal(segs: seq<string>, m: Params)
    requires forall seg <- segs :: ',' !in seg
    requires LegalParams(m)
    ensures ParseSegments(segs, m).Ok? ==> LegalParams(ParseSegments(segs, m).value)
  {
    if segs != [] {
      var pair := TrimSpace(segs[0]);
      if pair == "" {
        SegmentsGiveLegal(segs[1..], m);
      } else if ParsePair(pair).Ok? {
        var e := ParsePair(pair).value;
        PairIsLegal(pair);
        InsertKeepsLegal(m, e);
        SegmentsGiveLegal(segs[1..], Insert(m, e));
      }
    }
  }

  lemma PartsOfPair(pair: string)
    ensures var byDot := Cut(pair, '.');
            var byEq := Cut(byDot.after, '=');
            if !byDot.found then '.' !in pair
            else
              && pair == byDot.before + ['.'] + byDot.after && '.' !in byDot.before
              && (byEq.found ==> pair == byDot.before + ['.'] + (byEq.before + ['='] + byEq.after))
              && (!byEq.found ==> '=' !in byDot.after)
  {
  }

  lemma InNeither(u: string, v: string, c: char)
    requires c !in u + v
    ensures c !in u && c !in v
  {
    assert forall x <- u :: x in u + v;
    assert forall x <- v :: x in u + v;
  }

  lemma PairIsLegal(pair: string)
    requires pair != "" && Trimmed(pair) && ',' !in pair && ParsePair(pair).Ok?
    ensures Legal(ParsePair(pair).value)
  {
    PartsOfPair(pair);
    var e := ParsePair(pair).value;
    hide IsSpace, Cut;
    var rest := e.key + ['='] + e.value;
    assert pair == e.workload + ['.'] + rest && pair[0] == e.workload[0];
    assert rest[|rest| - 1] == pair[|pair| - 1];
    InNeither(e.workload + ['.'], rest, ',');
    InNeither(e.workload, ['.'], ',');
    InNeither(e.key + ['='], e.value, ',');
    InNeither(e.key, ['='], ',');
    if e.value != "" {
      assert rest[|rest| - 1] == e.value[|e.value| - 1];
    }
  }

  lemma InsertKeepsLegal(m: Params, e: Entry)
    requires LegalParams(m) && Legal(e)
    ensures LegalParams(Insert(m, e))
  {
    assert e.key in Insert(m, e)[e.workload];
    forall f | Holds(Insert(m, e), f) ensures Legal(f) {
      assert f == e || Holds(m, f);
    }
  }

  // ---------------------------------------------------------------------
  // One pair
  // ---------------------------------------------------------------------

  /** What is wrong with a pair, told from where its first '.' and the first '=' after it are. */
  ghost predicate IsFault(pair: string, error: ParseError) {
    && error.pair == pair
    && match error
       case MissingWorkload(_) => '.' !in pair
       case EmptyWorkload(_) => pair != "" && pair[0] == '.'
       case MissingEquals(_) =>
         exists u: string, v :: pair == u + ['.'] + v && u != "" && '.' !in u && '=' !in v
       case EmptyKey(_) =>
         exists u: string, v :: pair == u + ['.'] + (['='] + v) && u != "" && '.' !in u
  }

  /**
   A segment is read as an entry exactly when it is the entry's text, and
   refused with an error exactly when it has that fault.
   */
  lemma PairIsJudged(pair: string)
    requires pair != "" && Trimmed(pair) && ',' !in pair
    ensures forall e :: ParsePair(pair) == Ok(e) <==> Legal(e) && pair == PrintEntry(e)
    ensures forall error :: ParsePair(pair) == Err(error) <==> IsFault(pair, error)
  {
    forall e ensures ParsePair(pair) == Ok(e) <==> Legal(e) && pair == PrintEntry(e) {
      if ParsePair(pair) == Ok(e) {
        PairIsLegal(pair);
        PrintedParts(e);
      } else if Legal(e) && pair == PrintEntry(e) {
        PairIsCut(e);
      }
    }
    forall error ensures ParsePair(pair) == Err(error) <==> IsFault(pair, error) {
      PairIsFaulty(pair, error);
    }
  }

  lemma PairIsFaulty(pair: string, error: ParseError)
    requires pair != ""
    ensures ParsePair(pair) == Err(error) <==> IsFault(pair, error)
  {
    PartsOfPair(pair);
    var byDot := Cut(pair, '.');
    var byEq := Cut(byDot.after, '=');
    if ParsePair(pair) == Err(error) {
      if byDot.found && byDot.before != "" && byEq.found {
        assert byEq.before + ['='] + byEq.after == ['='] + byEq.after;
      }
    }
    if IsFault(pair, error) {
      FaultIsFound(pair, error);
    }
  }

  lemma FaultIsFound(pair: string, error: ParseError)
    requires IsFault(pair, error)
    ensures ParsePair(pair) == Err(error)
  {
    PartsOfPair(pair);
    match error {
      case MissingWorkload(_) =>
      case EmptyWorkload(_) =>
        assert pair == "" + ['.'] + pair[1..];
        CutAtFirst("", pair[1..], '.');
      case MissingEquals(_) =>
        var u: string, v :| pair == u + ['.'] + v && u != "" && '.' !in u && '=' !in v;
        CutAtFirst(u, v, '.');
      case EmptyKey(_) =>
        var u: string, v :| pair == u + ['.'] + (['='] + v) && u != "" && '.' !in u;
        CutAtFirst(u, ['='] + v, '.');
        assert "" + ['='] + v == ['='] + v;
        CutAtFirst("", v, '=');
    }
  }

  // ---------------------------------------------------------------------
  // Whole texts: white space, gaps, repeated keys, the first fault
  // ---------------------------------------------------------------------

  /** What stands between two commas: nothing but white space, or a pair with white space around it. */
  datatype Segment = Gap(blank: string) | Padded(left: string, entry: Entry, right: string)

  predicate WellFormed(seg: Segment) {
    match seg
    case Gap(blank) => Blank(blank)
    case Padded(left, entry, right) => Blank(left) && Legal(entry) && Blank(right)
  }

  function TextOf(seg: Segment): string {
    match seg
    case Gap(blank) => blank
    case Padded(left, entry, right) => left + (PrintEntry(entry) + right)
  }

  function TextsOf(segs: seq<Segment>): seq<string> {
    seq(|segs|, i requires 0 <= i < |segs| => TextOf(segs[i]))
  }

  function EntriesOf(segs: seq<Segment>): seq<Entry> {
    if segs == [] then []
    else (if segs[0].Padded? then [segs[0].entry] else []) + EntriesOf(segs[1..])
  }

  lemma BlankHasNoComma(s: string)
    requires Blank(s)
    ensures ',' !in s
  {
    assert !IsSpace(',');
  }

  lemma TextHasNoComma(seg: Segment)
    requires WellFormed(seg)
    ensures ',' !in TextOf(seg)
  {
    hide IsSpace, PrintEntry, Legal;
    match seg
    case Gap(blank) => BlankHasNoComma(blank);
    case Padded(left, entry, right) =>
      BlankHasNoComma(left);
      BlankHasNoComma(right);
      PairParses(entry);
  }

  predicate SameTrimmed(segs: seq<string>, segs': seq<string>) {
    |segs| == |segs'| && forall i | 0 <= i < |segs| :: TrimSpace(segs[i]) == TrimSpace(segs'[i])
  }

  lemma SameTrimmedTails(segs: seq<string>, segs': seq<string>)
    requires SameTrimmed(segs, segs') && segs != []
    ensures TrimSpace(segs[0]) == TrimSpace(segs'[0]) && SameTrimmed(segs[1..], segs'[1..])
  {
    hide TrimSpace;
  }

  lemma {:induction false} SegmentsUpToTrim(segs: seq<string>, segs': seq<string>, m: Params)
    requires SameTrimmed(segs, segs')
    ensures ParseSegments(segs, m) == ParseSegments(segs', m)
  {
    if segs != [] {
      SegmentStep(segs, m);
      SegmentStep(segs', m);
      SameTrimmedTails(segs, segs');
      hide *;
      var pair := TrimSpace(segs[0]);
      SegmentsUpToTrim(segs[1..], segs'[1..], m);
      if ParsePair(pair).Ok? {
        SegmentsUpToTrim(segs[1..], segs'[1..], Insert(m, ParsePair(pair).value));
      }
    }
  }

  lemma SegmentStep(segs: seq<string>, m: Params)
    requires segs != []
    ensures var pair := TrimSpace(segs[0]);
            ParseSegments(segs, m)
            == if pair == "" then ParseSegments(segs[1..], m)
               else if ParsePair(pair).Err? then Err(ParsePair(pair).error)
               else ParseSegments(segs[1..], Insert(m, ParsePair(pair).value))
  {
    hide TrimSpace, ParsePair, Insert;
  }

  lemma {:induction false} SplitBeforeText(s: string, v: string, sep: char)
    requires sep !in v
    ensures var segs := Split(s, sep);
            Split(s + v, sep) == segs[..|segs| - 1] + [segs[|segs| - 1] + v]
  {
    if s == "" {
      SplitOfSum(v, "", sep);
      assert s + v == v && v + "" == v;
    } else {
      SplitBeforeText(s[1..], v, sep);
      SplitFirst(s, sep);
      SplitFirst(s + v, sep);
      assert (s + v)[0] == s[0] && (s + v)[1..] == s[1..] + v;
      hide Split;
      LastSegmentGrows(s[0], Split(s[1..], sep), v, sep);
    }
  }

  /** Split, with one more character in front. */
  function Prepended(c: char, segs: seq<string>, sep: char): seq<string>
    requires segs != []
  {
    if c == sep then [""] + segs else [[c] + segs[0]] + segs[1..]
  }

  lemma SplitFirst(s: string, sep: char)
    requires s != ""
    ensures Split(s, sep) == Prepended(s[0], Split(s[1..], sep), sep)
  {
  }

  lemma LastSegmentGrows(c: char, segs: seq<string>, v: string, sep: char)
    requires segs != []
    ensures var all := Prepended(c, segs, sep);
            Prepended(c, segs[..|segs| - 1] + [segs[|segs| - 1] + v], sep)
            == all[..|all| - 1] + [all[|all| - 1] + v]
  {
    var n := |segs| - 1;
    var grown := segs[..n] + [segs[n] + v];
    if c != sep && n == 0 {
      assert [c] + (segs[0] + v) == [c] + segs[0] + v;
    } else if c != sep {
      assert grown[0] == segs[0];
      assert grown[1..] == segs[1..][..n - 1] + [segs[n] + v];
    }
  }

  /** The white space around the whole text makes no difference. */
  lemma ParsedIsSegments(raw: string)
    ensures Parsed(raw) == ParseSegments(Split(raw, ','), map[])
  {
    var u, v := Padding(raw);
    var t := TrimSpace(raw);
    BlankHasNoComma(u);
    BlankHasNoComma(v);
    if t == "" {
      OneSegment(raw, u, v);
    } else {
      hide TrimSpace, Split, ParseSegments, Blank, IsSpace;
      SplitPadded(u, t, v);
      EndsTrimmed(Split(t, ','), Split(raw, ','), u, v);
      SegmentsUpToTrim(Split(t, ','), Split(raw, ','), map[]);
    }
  }

  lemma SplitPadded(u: string, t: string, v: string)
    requires ',' !in u && ',' !in v
    ensures var segs := Split(t, ',');
            var segs' := segs[..|segs| - 1] + [segs[|segs| - 1] + v];
            Split(u + (t + v), ',') == [u + segs'[0]] + segs'[1..]
  {
    SplitOfSum(u, t + v, ',');
    SplitBeforeText(t, v, ',');
    hide Split;
  }

  lemma OneSegment(raw: string, u: string, v: string)
    requires TrimSpace(raw) == "" && raw == u + (TrimSpace(raw) + v) && ',' !in u && ',' !in v
    ensures ParseSegments(Split(raw, ','), map[]) == Ok(map[])
  {
    SplitOfSum(raw, "", ',');
    assert raw + "" == raw && Split(raw, ',') == [raw];
    SegmentStep([raw], map[]);
  }

  lemma EndsTrimmed(segs: seq<string>, segs': seq<string>, u: string, v: string)
    requires segs != [] && Blank(u) && Blank(v)
    requires var segs'' := segs[..|segs| - 1] + [segs[|segs| - 1] + v];
             segs' == [u + segs''[0]] + segs''[1..]
    ensures SameTrimmed(segs, segs')
  {
    hide TrimSpace, Blank;
    forall i | 0 <= i < |segs| ensures TrimSpace(segs[i]) == TrimSpace(segs'[i]) {
      var u' := if i == 0 then u else "";
      var v' := if i == |segs| - 1 then v else "";
      assert segs'[i] == u' + (segs[i] + v') by {
        assert segs[i] + "" == segs[i] && "" + segs[i] == segs[i] && "" + (segs[i] + v) == segs[i] + v;
      }
      EmptyIsBlank();
      MorePadding(u', segs[i], v');
    }
  }

  lemma EmptyIsBlank()
    ensures Blank("")
  {
  }

  lemma {:induction false} PaddedSegments(segs: seq<Segment>, rest: seq<string>, m: Params)
    requires forall seg <- segs :: WellFormed(seg)
    ensures ParseSegments(TextsOf(segs) + rest, m) == ParseSegments(rest, InsertAll(m, EntriesOf(segs)))
    decreases |segs|
  {
    var texts := TextsOf(segs) + rest;
    if segs == [] {
      assert texts == rest;
    } else {
      assert texts[0] == TextOf(segs[0]) && texts[1..] == TextsOf(segs[1..]) + rest;
      SegmentTrimmed(segs[0]);
      SegmentStep(texts, m);
      InsertedFirst(segs, m);
      hide *;
      match segs[0]
      case Gap(_) => PaddedSegments(segs[1..], rest, m);
      case Padded(_, e, _) => PaddedSegments(segs[1..], rest, Insert(m, e));
    }
  }

  lemma InsertedFirst(segs: seq<Segment>, m: Params)
    requires segs != []
    ensures InsertAll(m, EntriesOf(segs))
            == InsertAll(if segs[0].Gap? then m else Insert(m, segs[0].entry), EntriesOf(segs[1..]))
  {
    hide Insert;
    if segs[0].Padded? {
      assert EntriesOf(segs)[0] == segs[0].entry && EntriesOf(segs)[1..] == EntriesOf(segs[1..]);
    } else {
      assert EntriesOf(segs) == EntriesOf(segs[1..]);
    }
  }

  lemma SegmentTrimmed(seg: Segment)
    requires WellFormed(seg)
    ensures seg.Gap? ==> TrimSpace(TextOf(seg)) == ""
    ensures seg.Padded? ==> TrimSpace(TextOf(seg)) == PrintEntry(seg.entry) != ""
                            && ParsePair(PrintEntry(seg.entry)) == Ok(seg.entry)
  {
    match seg
    case Gap(blank) =>
      TrimmingIsExact(blank, "", "");
      assert blank + ("" + "") == blank;
    case Padded(left, entry, right) =>
      PairParses(entry);
      TrimmingIsExact(left, PrintEntry(entry), right);
  }

  lemma TextsAreSegments(segs: seq<Segment>, rest: seq<string>)
    requires TextsOf(segs) + rest != []
    requires (forall seg <- segs :: WellFormed(seg)) && forall text <- rest :: ',' !in text
    ensures Split(Join(TextsOf(segs) + rest, ','), ',') == TextsOf(segs) + rest
  {
    hide TextOf, WellFormed;
    forall text <- TextsOf(segs) ensures ',' !in text {
      var i :| 0 <= i < |segs| && TextOf(segs[i]) == text;
      TextHasNoComma(segs[i]);
    }
    SplitUndoesJoin(TextsOf(segs) + rest, ',');
  }

  predicate SameKey(e: Entry, f: Entry) { e.workload == f.workload && e.key == f.key }

  /** No later entry sets the same key of the same workload. */
  predicate IsLast(es: seq<Entry>, e: Entry) {
    exists k :: 0 <= k < |es| && es[k] == e && NoneAfter(es, k, e)
  }

  predicate NoneAfter(es: seq<Entry>, k: int, e: Entry) {
    forall j | 0 <= j < |es| && k < j :: !SameKey(es[j], e)
  }

  lemma {:induction false} LastInserted(m: Params, es: seq<Entry>, e: Entry)
    ensures Holds(InsertAll(m, es), e) <==> IsLast(es, e) || (Holds(m, e) && NoneAfter(es, -1, e))
    decreases |es|
  {
    if es != [] {
      var first, rest := es[0], es[1..];
      LastInserted(Insert(m, first), rest, e);
      assert Holds(Insert(m, first), e) <==> e == first || (Holds(m, e) && !SameKey(first, e));
      hide Insert, Holds, IsLast, NoneAfter;
      LastOfMore(first, rest, e);
      assert es == [first] + rest;
    }
  }

  lemma NoneAfterMore(first: Entry, rest: seq<Entry>, k: int, e: Entry)
    requires k >= 0
    ensures NoneAfter([first] + rest, k, e) <==> NoneAfter(rest, k - 1, e)
  {
    hide SameKey;
    var es := [first] + rest;
    if NoneAfter(es, k, e) {
      forall j | 0 <= j < |rest| && k - 1 < j ensures !SameKey(rest[j], e) {
        assert rest[j] == es[j + 1];
      }
    }
    if NoneAfter(rest, k - 1, e) {
      forall j | 0 <= j < |es| && k < j ensures !SameKey(es[j], e) {
        assert es[j] == rest[j - 1];
      }
    }
  }

  lemma LastOfMore(first: Entry, rest: seq<Entry>, e: Entry)
    ensures IsLast([first] + rest, e) <==> IsLast(rest, e) || (e == first && NoneAfter(rest, -1, e))
    ensures NoneAfter([first] + rest, -1, e) <==> !SameKey(first, e) && NoneAfter(rest, -1, e)
  {
    var es := [first] + rest;
    NoneAfterMore(first, rest, 0, e);
    assert NoneAfter(es, -1, e) <==> !SameKey(es[0], e) && NoneAfter(es, 0, e);
    hide NoneAfter, SameKey;
    if k :| 0 <= k < |rest| && rest[k] == e && NoneAfter(rest, k, e) {
      NoneAfterMore(first, rest, k + 1, e);
      assert es[k + 1] == e;
    }
    if k :| 0 <= k < |es| && es[k] == e && NoneAfter(es, k, e) {
      NoneAfterMore(first, rest, k, e);
      assert k > 0 ==> rest[k - 1] == e;
    }
    if e == first && NoneAfter(rest, -1, e) {
      assert es[0] == e;
    }
  }

  /**
   Pairs with any white space around them and any blank segments between them
   are read as the bare pairs are; of two pairs for one key the later counts.
   */
  lemma PaddedPairsParse(segs: seq<Segment>)
    requires segs != [] && forall seg <- segs :: WellFormed(seg)
    ensures Parsed(Join(TextsOf(segs), ',')) == Parsed(Print(EntriesOf(segs)))
    ensures var r := Parsed(Join(TextsOf(segs), ','));
            r.Ok? && forall e :: Holds(r.value, e) <==> IsLast(EntriesOf(segs), e)
  {
    var es := EntriesOf(segs);
    EntriesAreLegal(segs);
    ParsedIsSegments(Join(TextsOf(segs), ','));
    TextsAreSegments(segs, []);
    PaddedSegments(segs, [], map[]);
    assert TextsOf(segs) + [] == TextsOf(segs);
    BarePairsParse(es);
    hide Parsed, Split, WellFormed, TextsOf, EntriesOf, Print, IsLast, Legal, NoneAfter, ParseSegments;
    forall e ensures Holds(InsertAll(map[], es), e) <==> IsLast(es, e) {
      LastInserted(map[], es, e);
    }
    assert ParseSegments([], InsertAll(map[], es)) == Ok(InsertAll(map[], es)) by {
      NoMoreSegments(InsertAll(map[], es));
    }
  }

  lemma NoMoreSegments(m: Params)
    ensures ParseSegments([], m) == Ok(m)
  {
  }

  lemma {:induction false} EntriesAreLegal(segs: seq<Segment>)
    requires forall seg <- segs :: WellFormed(seg)
    ensures forall e <- EntriesOf(segs) :: Legal(e)
  {
    hide Legal, Blank;
    if segs != [] {
      EntriesAreLegal(segs[1..]);
      assert WellFormed(segs[0]);
    }
  }

  lemma BarePairsParse(es: seq<Entry>)
    requires forall e <- es :: Legal(e)
    ensures Parsed(Print(es)) == Ok(InsertAll(map[], es))
  {
    if es == [] {
      NothingPrinted();
    } else {
      PrintedSplits(es);
      ParsedIsSegments(Print(es));
      SegmentsParse(es, map[]);
      assert ParseSegments(Split(Print(es), ','), map[]) == Ok(InsertAll(map[], es));
    }
  }

  lemma PrintedSplits(es: seq<Entry>)
    requires es != [] && forall e <- es :: Legal(e)
    ensures Split(Print(es), ',') == PrintAll(es)
  {
    forall seg <- PrintAll(es) ensures ',' !in seg {
      PrintedHasNoComma(es, seg);
    }
    SplitUndoesJoin(PrintAll(es), ',');
  }

  lemma NothingPrinted()
    ensures Parsed(Print([])) == Ok(InsertAll(map[], []))
  {
    assert PrintAll([]) == [];
    TrimmedIsFixed("");
  }

  /** The first pair that is faulty decides the error, whatever follows it. */
  lemma FirstFaultDecides(segs: seq<Segment>, left: string, pair: string, right: string, rest: seq<string>,
                          error: ParseError)
    requires forall seg <- segs :: WellFormed(seg)
    requires Blank(left) && Blank(right) && pair != "" && Trimmed(pair) && ',' !in pair && IsFault(pair, error)
    requires forall text <- rest :: ',' !in text
    ensures Parsed(Join(TextsOf(segs) + ([left + (pair + right)] + rest), ',')) == Err(error)
  {
    var text := left + (pair + right);
    BlankHasNoComma(left);
    BlankHasNoComma(right);
    TrimmingIsExact(left, pair, right);
    FaultIsFound(pair, error);
    hide IsFault, WellFormed, TextsOf, TrimSpace, Blank;
    ParsedIsSegments(Join(TextsOf(segs) + ([text] + rest), ','));
    TextsAreSegments(segs, [text] + rest);
    PaddedSegments(segs, [text] + rest, map[]);
  }

  // ---------------------------------------------------------------------
  // The merge of parsed params over the YAML file's, in LoadConfig
  // ---------------------------------------------------------------------

  datatype WorkloadConfig = WorkloadConfig(enabled: Option<bool>, vmCount: int, cpuCores: int, memory: string,
                                           params: map<string, string>)

  const NO_CONFIG := WorkloadConfig(None, 0, 0, "", map[])

  /** What the merged configuration holds for one workload. */
  function Lookup(workloads: map<string, WorkloadConfig>, name: string): WorkloadConfig {
    if name in workloads then workloads[name] else NO_CONFIG
  }

  method MergeParams(yaml: map<string, WorkloadConfig>, parsed: Params) returns (merged: map<string, WorkloadConfig>)
    ensures merged.Keys == yaml.Keys + parsed.Keys
    ensures forall name, key | name in parsed && key in parsed[name] ::
              key in merged[name].params && merged[name].params[key] == parsed[name][key]
    ensures forall name | name in merged ::
              && merged[name].(params := map[]) == Lookup(yaml, name).(params := map[])
              && (name !in parsed ==> merged[name] == Lookup(yaml, name))
    ensures forall name, key | name in parsed && key !in parsed[name] ::
              && (key in merged[name].params <==> key in Lookup(yaml, name).params)
              && (key in merged[name].params ==> merged[name].params[key] == Lookup(yaml, name).params[key])
  {
    merged := yaml;
    var todo := parsed.Keys;
    while todo != {}
      invariant todo <= parsed.Keys
      invariant merged.Keys == yaml.Keys + (parsed.Keys - todo)
      invariant forall name | name in merged ::
                  merged[name] == if name in parsed.Keys - todo
                                  then Lookup(yaml, name).(params := Lookup(yaml, name).params + parsed[name])
                                  else Lookup(yaml, name)
    {
      var name :| name in todo;
      var config := Lookup(merged, name);
      merged := merged[name := config.(params := config.params + parsed[name])];
      todo := todo - {name};
    }
  }
}
