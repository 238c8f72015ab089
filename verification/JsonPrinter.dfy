/** A printer that meets the law RESULT evidence is proved under: self-delimiting text with raw characters inside
    strings, as `ensure_ascii=False` leaves them. With it, a valid record that does not read back. */
module JsonPrinter {
  import opened Options
  import opened Text
  import opened Fences
  import opened SortedStrings
  import opened ResultEvidence

  /** Each character behind a backslash, then the closing quote. */
  function Quote(s: string): string { if s == "" then "\"" else ['\\', s[0]] + Quote(s[1..]) }

  function Strokes(n: nat): string { if n == 0 then "." else "1" + Strokes(n - 1) }

  function Print(v: Json): string {
    match v
    case Null => "n"
    case Bool(b) => if b then "t" else "f"
    case Int(n) => if n >= 0 then "+" + Strokes(n) else "-" + Strokes(-n)
    case Float => "x"
    case Str(s) => "\"" + Quote(s)
    case List(items) => "[" + PrintAll(items)
    case Object(keys, items) => "{" + PrintFields(keys, items)
    case Other => "y"
  }

  function PrintAll(items: seq<Json>): string {
    if items == [] then "]" else "," + Print(items[0]) + PrintAll(items[1..])
  }

  function PrintFields(keys: seq<string>, items: seq<Json>): string
    decreases items
  {
    if keys == [] || items == [] then "}" else "," + Quote(keys[0]) + Print(items[0]) + PrintFields(keys[1..], items[1..])
  }

  // ------------------------------------------------- what follows does not change a reading

  lemma Shift(c: string, q: string, p: string, r: string, x: string)
    requires |c| == 1
    ensures var a := c + q + p + r + x; a[0] == c[0] && a[1..] == q + (p + (r + x))
  {
    var a, b := c + q + p + r + x, q + (p + (r + x));
    assert a == c + b;
  }

  lemma AllFirst(items: seq<Json>, x: string)
    ensures var a := PrintAll(items) + x;
            if items == [] then a[0] == ']' && a[1..] == x
            else a[0] == ',' && a[1..] == Print(items[0]) + (PrintAll(items[1..]) + x)
  {
    if items != [] {
      var p, r := Print(items[0]), PrintAll(items[1..]);
      Shift(",", "", p, r, x);
      assert "," + "" == ",";
      assert "" + (p + (r + x)) == p + (r + x);
    }
  }

  lemma FieldsFirst(keys: seq<string>, items: seq<Json>, x: string)
    requires |keys| == |items|
    ensures var a := PrintFields(keys, items) + x;
            if items == [] then a[0] == '}' && a[1..] == x
            else a[0] == ',' && a[1..] == Quote(keys[0]) + (Print(items[0]) + (PrintFields(keys[1..], items[1..]) + x))
  {
    if items != [] {
      Shift(",", Quote(keys[0]), Print(items[0]), PrintFields(keys[1..], items[1..]), x);
    }
  }

  lemma {:induction false} QuoteCancels(s: string, t: string, x: string, y: string)
    requires Quote(s) + x == Quote(t) + y
    ensures s == t && x == y
  {
    var a, b := Quote(s) + x, Quote(t) + y;
    assert a[0] == b[0];
    if s == "" {
      assert a[1..] == x && b[1..] == y;
    } else {
      assert a[1] == s[0] && b[1] == t[0];
      assert a[2..] == Quote(s[1..]) + x && b[2..] == Quote(t[1..]) + y;
      QuoteCancels(s[1..], t[1..], x, y);
      assert s == [s[0]] + s[1..] && t == [t[0]] + t[1..];
    }
  }

  lemma {:induction false} StrokesCancel(m: nat, n: nat, x: string, y: string)
    requires Strokes(m) + x == Strokes(n) + y
    ensures m == n && x == y
  {
    var a, b := Strokes(m) + x, Strokes(n) + y;
    assert a[0] == b[0];
    if m == 0 {
      assert a[1..] == x && b[1..] == y;
    } else {
      assert a[1..] == Strokes(m - 1) + x && b[1..] == Strokes(n - 1) + y;
      StrokesCancel(m - 1, n - 1, x, y);
    }
  }

  lemma {:induction false} PrintCancels(v: Json, u: Json, x: string, y: string)
    requires IsJson(v) && IsJson(u) && Print(v) + x == Print(u) + y
    ensures v == u && x == y
    decreases v
  {
    ValueFirst(v, x);
    ValueFirst(u, y);
    match v
    case Int(n) => StrokesCancel(Size(n), Size(u.n), x, y);
    case Str(s) => QuoteCancels(s, u.s, x, y);
    case List(items) => AllCancels(items, u.items, x, y);
    case Object(keys, items) => FieldsCancel(keys, items, u.keys, u.items, x, y);
    case _ =>
  }

  function Size(n: int): nat { if n >= 0 then n else -n }

  /** What is left of a print behind its first character. */
  function Rest(v: Json): string {
    match v
    case Int(n) => Strokes(Size(n))
    case Str(s) => Quote(s)
    case List(items) => PrintAll(items)
    case Object(keys, items) => PrintFields(keys, items)
    case _ => ""
  }

  lemma ValueFirst(v: Json, x: string)
    ensures Print(v) + x != "" && (Print(v) + x)[1..] == Rest(v) + x && (Print(v) + x)[0] == Print(v)[0]
  {
  }

  lemma {:induction false} AllCancels(items: seq<Json>, others: seq<Json>, x: string, y: string)
    requires (forall i :: 0 <= i < |items| ==> IsJson(items[i])) && (forall i :: 0 <= i < |others| ==> IsJson(others[i]))
    requires PrintAll(items) + x == PrintAll(others) + y
    ensures items == others && x == y
    decreases items
  {
    AllFirst(items, x);
    AllFirst(others, y);
    if items != [] {
      PrintCancels(items[0], others[0], PrintAll(items[1..]) + x, PrintAll(others[1..]) + y);
      AllCancels(items[1..], others[1..], x, y);
      assert items == [items[0]] + items[1..] && others == [others[0]] + others[1..];
    }
  }

  lemma {:induction false} FieldsCancel(keys: seq<string>, items: seq<Json>, keys': seq<string>, items': seq<Json>, x: string, y: string)
    requires |keys| == |items| && |keys'| == |items'|
    requires (forall i :: 0 <= i < |items| ==> IsJson(items[i])) && (forall i :: 0 <= i < |items'| ==> IsJson(items'[i]))
    requires PrintFields(keys, items) + x == PrintFields(keys', items') + y
    ensures keys == keys' && items == items' && x == y
    decreases items
  {
    FieldsFirst(keys, items, x);
    FieldsFirst(keys', items', y);
    if items != [] {
      var r, r' := PrintFields(keys[1..], items[1..]) + x, PrintFields(keys'[1..], items'[1..]) + y;
      QuoteCancels(keys[0], keys'[0], Print(items[0]) + r, Print(items'[0]) + r');
      PrintCancels(items[0], items'[0], r, r');
      FieldsCancel(keys[1..], items[1..], keys'[1..], items'[1..], x, y);
      assert items == [items[0]] + items[1..] && items' == [items'[0]] + items'[1..];
      assert keys == [keys[0]] + keys[1..] && keys' == [keys'[0]] + keys'[1..];
    }
  }

  // ------------------------------------------------------------------------ dictionaries

  /** The elements of a set in ascending order. */
  ghost function KeysOf(s: set<string>): (ks: seq<string>)
    ensures Ascending(ks) && Elements(ks) == s
  {
    if s == {} then []
    else
      var x :| x in s;
      var rest := KeysOf(s - {x});
      InsertAscends(x, rest);
      Insert(x, rest)
  }

  ghost function AsObject(d: Dict): (v: Json)
    ensures v.Object? && Ascending(v.keys) && Elements(v.keys) == d.Keys && |v.items| == |v.keys|
    ensures forall i :: 0 <= i < |v.keys| ==> v.keys[i] in d && v.items[i] == d[v.keys[i]]
  {
    var ks := KeysOf(d.Keys);
    assert forall i :: 0 <= i < |ks| ==> ks[i] in Elements(ks);
    Object(ks, seq(|ks|, i requires 0 <= i < |ks| => d[ks[i]]))
  }

  ghost function PrintDict(d: Dict): string { Print(AsObject(d)) }

  ghost function ParseDict(s: string): Option<Dict> { if d :| JsonDict(d) && PrintDict(d) == s then Some(d) else None }

  ghost function Sample(): Printer { Printer(PrintDict, ParseDict) }

  lemma SameDict(d: Dict, e: Dict)
    requires AsObject(d) == AsObject(e)
    ensures d == e
  {
    forall k | k in d ensures k in e && d[k] == e[k] {
      assert k in Elements(AsObject(d).keys);
      var i :| 0 <= i < |AsObject(d).keys| && AsObject(d).keys[i] == k;
    }
    assert d.Keys == e.Keys;
  }

  /** No printed dictionary is the beginning of another. */
  lemma DictCancels(d: Dict, e: Dict, x: string, y: string)
    requires JsonDict(d) && JsonDict(e) && PrintDict(d) + x == PrintDict(e) + y
    ensures d == e && x == y
  {
    PrintCancels(AsObject(d), AsObject(e), x, y);
    SameDict(d, e);
  }

  lemma {:induction false} FieldsEnd(keys: seq<string>, items: seq<Json>)
    requires |keys| == |items|
    ensures var s := PrintFields(keys, items); s != "" && s[|s| - 1] == '}'
    decreases items
  {
    if items != [] {
      FieldsEnd(keys[1..], items[1..]);
    }
  }

  lemma PrintIsBraced(d: Dict)
    ensures Braced(PrintDict(d))
  {
    FieldsEnd(AsObject(d).keys, AsObject(d).items);
  }

  /** Stripping a cut print only cuts it further. */
  lemma PayloadIsCut(j: string, n: nat)
    requires Braced(j) && n <= |j|
    ensures Payload(j, n) <= j[..n]
  {
    var s := " " + j[..n];
    assert s[1..] == j[..n];
    StripRightTail(j[..n]);
    assert StripLeft(s) == StripLeft(j[..n]) == j[..n];
  }

  lemma ParsesExactly(d: Dict, s: string)
    requires JsonDict(d) && s <= PrintDict(d)
    ensures ParseDict(s) == if s == PrintDict(d) then Some(d) else None
  {
    var rest := PrintDict(d)[|s|..];
    assert PrintDict(d) == s + rest;
    forall e | JsonDict(e) && PrintDict(e) == s ensures e == d && rest == "" {
      assert PrintDict(e) + rest == PrintDict(d) + "";
      DictCancels(e, d, rest, "");
    }
  }

  /** The law of RESULT evidence can be met. */
  lemma SampleIsInverse()
    ensures Inverse(Sample())
  {
    var p := Sample();
    forall d | JsonDict(d) ensures Braced(p.print_(d)) && p.parse(p.print_(d)) == Some(d) {
      PrintIsBraced(d);
      ParsesExactly(d, PrintDict(d));
    }
    forall d, n | JsonDict(d) && 0 <= n < |p.print_(d)| ensures p.parse(Payload(p.print_(d), n)).None? {
      PrintIsBraced(d);
      PayloadIsCut(PrintDict(d), n);
      ParsesExactly(d, Payload(PrintDict(d), n));
    }
  }

  // ----------------------------------------------------------- a record that does not read back

  const SEPARATOR := '\U{2028}'

  /** Impact evidence with a note that holds a line separator. */
  const NOTE := Object(["n"], [Str(['a', SEPARATOR, 'b'])])

  function SampleFact(k: string): Json {
    if k == "slice_c_impact_evidence" then NOTE
    else if k == "action" then Str("RUN")
    else if k == "actual_changed_paths" then List([])
    else if k == "candidate_stage_aios_managed_t2_execution_count" then Int(0)
    else if k == "certification_deferred" || k == "semantic_review_required" then Bool(true)
    else if k == "blocked_execution_evidence" || k == "review_risk_evidence" then Null
    else if k == "base_main_sha" then Str("UNKNOWN")
    else if k == "candidate_head_sha" then Str("0123456789abcdef0123456789abcdef01234567")
    else if k == "executor_id" then Str("codex")
    else if k == "full_canonical_owner" then Str("CERTIFICATION_BOUNDARY")
    else if k == "pipeline_mode" then Str("REVIEW_FIRST_CERTIFICATION")
    else if k == "publication_trust_status" then Str("VERIFIED")
    else if k == "targeted_test_status" then Str("PASS")
    else if k == "task_id" then Str("TASK-1")
    else if k == "transport_status" then Str("COMPLETED")
    else Str("FULL")
  }

  function SampleFacts(): Dict { map k | k in FACT_FIELDS :: SampleFact(k) }

  function SampleEvidence(): Evidence { Evidence("2", ROLE, BINDING, SampleFacts()) }

  lemma NoteIsLegal()
    ensures Legal((s: string) => s, NOTE) && Nodes(NOTE) == 2 && IsJson(NOTE)
  {
    assert ["n"][0] == "n";
    forall part | part in FORBIDDEN_KEY_PARTS ensures !Contains("n", part) {
      assert |part| > 1;
    }
    var items := [Str(['a', SEPARATOR, 'b'])];
    assert items[1..] == [];
    assert AllNodes(items) == Nodes(items[0]) + AllNodes(items[1..]);
  }

  lemma {:induction false} QuoteHolds(s: string, c: char)
    requires c in s
    ensures c in Quote(s)
  {
    if s[0] != c {
      QuoteHolds(s[1..], c);
    } else {
      assert Quote(s)[1] == c;
    }
  }

  lemma {:induction false} FieldsHold(keys: seq<string>, items: seq<Json>, i: nat, c: char)
    requires |keys| == |items| && i < |items| && c in Print(items[i])
    ensures c in PrintFields(keys, items)
    decreases items
  {
    if i > 0 {
      FieldsHold(keys[1..], items[1..], i - 1, c);
    }
  }

  lemma NoteHolds()
    ensures SEPARATOR in Print(NOTE)
  {
    var text := ['a', SEPARATOR, 'b'];
    assert text[1] == SEPARATOR;
    QuoteHolds(text, SEPARATOR);
    assert SEPARATOR in Print(Str(text));
    FieldsHold(["n"], [Str(text)], 0, SEPARATOR);
  }

  lemma DictHolds(d: Dict, k: string, c: char)
    requires k in d && c in Print(d[k])
    ensures c in PrintDict(d)
  {
    var v := AsObject(d);
    assert k in Elements(v.keys);
    var i :| 0 <= i < |v.keys| && v.keys[i] == k;
    FieldsHold(v.keys, v.items, i, c);
  }

  lemma SampleHasNote()
    ensures var d, k := ToDict(SampleEvidence()), "slice_c_impact_evidence"; k in d && d[k] == NOTE
  {
    assert "slice_c_impact_evidence" in FACT_FIELDS;
  }

  lemma BreakInside(j: string)
    requires SEPARATOR in j
    ensures !OneLine(j)
  {
    var n :| 0 <= n < |j| && j[n] == SEPARATOR;
    assert IsBreak(j[n]);
  }

  lemma SamplePrintsBreak()
    ensures !OneLine(PrintDict(ToDict(SampleEvidence())))
  {
    SampleHasNote();
    NoteHolds();
    DictHolds(ToDict(SampleEvidence()), "slice_c_impact_evidence", SEPARATOR);
    BreakInside(PrintDict(ToDict(SampleEvidence())));
  }

  /** A valid record, with a note the value check accepts, printed by a lawful printer and published between any
      prose: it does not read back. */
  lemma ValidRecordIsLost(factsOk: Dict -> bool, before: seq<string>, after: seq<string>)
    requires factsOk(SampleFacts()) && Prose(before) && Prose(after)
    ensures Valid(factsOk, SampleEvidence()) && Inverse(Sample()) && Legal((s: string) => s, NOTE)
    ensures Parse(Sample(), factsOk, Publish(Sample(), SampleEvidence(), before, after)).None?
  {
    NoteIsLegal();
    SampleIsInverse();
    SampleIsValid(factsOk);
    SamplePrintsBreak();
    BrokenLineIsRejected(Sample(), factsOk, SampleEvidence(), before, after);
  }

  lemma SampleIsValid(factsOk: Dict -> bool)
    requires factsOk(SampleFacts())
    ensures Valid(factsOk, SampleEvidence())
  {
    SampleFactsAreJson();
  }

  lemma SampleFactIsJson(k: string)
    ensures IsJson(SampleFact(k))
  {
    NoteIsLegal();
  }

  lemma SampleFactsAreJson()
    ensures JsonDict(SampleFacts()) && SampleFacts().Keys == FACT_FIELDS
  {
    forall k | k in SampleFacts() ensures IsJson(SampleFacts()[k]) {
      SampleFactIsJson(k);
    }
  }

  /** A valid schema-1 record with a head role of its own does not survive its dictionary. */
  lemma SchemaOneForgetsRole(factsOk: Dict -> bool)
    requires factsOk(SampleFacts())
    ensures var e := Evidence("1", "CUSTOM", BINDING, SampleFacts());
            Valid(factsOk, e) && FromDict(factsOk, ToDict(e)).Some? && FromDict(factsOk, ToDict(e)) != Some(e)
  {
    SampleFactsAreJson();
    ReadBack(factsOk, Evidence("1", "CUSTOM", BINDING, SampleFacts()));
  }
}
