/** Machine evidence of a review-first RESULT: what values it may hold, how it is written as one
    marker line, and when reading the file gives the same evidence back. */
module ResultEvidence {
  import opened Options
  import opened Text
  import opened Fences
  import opened SortedStrings

  // ----------------------------------------------------------------- bounded values

  datatype Json =
    | Null
    | Bool(b: bool)
    | Int(n: int)
    | Float
    | Str(s: string)
    | List(items: seq<Json>)
    | Object(keys: seq<string>, items: seq<Json>)
    | Other

  const MAX_NESTED_ITEMS: nat := 256
  const FORBIDDEN_KEY_PARTS := ["stdout", "stderr", "reasoning", "chain_of_thought", "raw_log"]

  /** Case folding. */
  type Lower = string -> string

  predicate Contains(s: string, part: string) { part <= s || (s != "" && Contains(s[1..], part)) }

  predicate LegalKey(lower: Lower, key: string) {
    0 < |key| <= 128 && forall part :: part in FORBIDDEN_KEY_PARTS ==> !Contains(lower(key), part)
  }

  predicate LegalText(s: string) { |s| <= 1024 && forall i :: 0 <= i < |s| ==> s[i] >= ' ' || s[i] == '\t' }

  /** Every part of the value is of a legal kind and size. */
  predicate Legal(lower: Lower, v: Json) {
    match v
    case Float => false
    case Other => false
    case Str(s) => LegalText(s)
    case List(items) => |items| <= 128 && forall i :: 0 <= i < |items| ==> Legal(lower, items[i])
    case Object(keys, items) =>
      && |keys| == |items| <= 64 && (forall i :: 0 <= i < |keys| ==> LegalKey(lower, keys[i]))
      && forall i :: 0 <= i < |items| ==> Legal(lower, items[i])
    case _ => true
  }

  /** A value JSON can carry. An object stands for a dictionary, so its keys are in their one ascending order. */
  predicate IsJson(v: Json) {
    match v
    case Float => false
    case Other => false
    case List(items) => forall i :: 0 <= i < |items| ==> IsJson(items[i])
    case Object(keys, items) => |keys| == |items| && Ascending(keys) && forall i :: 0 <= i < |items| ==> IsJson(items[i])
    case _ => true
  }

  /** How many values a value holds, itself included. */
  function Nodes(v: Json): (n: nat)
    ensures n >= 1
  {
    match v
    case List(items) => 1 + AllNodes(items)
    case Object(_, items) => 1 + AllNodes(items)
    case _ => 1
  }

  function AllNodes(items: seq<Json>): nat {
    if items == [] then 0 else Nodes(items[0]) + AllNodes(items[1..])
  }

  lemma {:induction false} AllNodesSplit(items: seq<Json>, i: nat)
    requires i < |items|
    ensures AllNodes(items[..i + 1]) == AllNodes(items[..i]) + Nodes(items[i]) <= AllNodes(items)
  {
    if i == 0 {
      assert items[..1][1..] == [];
    } else {
      AllNodesSplit(items[1..], i - 1);
      assert items[..i + 1][1..] == items[1..][..i] && items[..i][1..] == items[1..][..i - 1];
    }
  }

  /** `_bounded_machine_value`: accepted exactly when every part is legal and at most 256 values are held in all;
      the running count is shared by the whole recursion. */
  method CheckValue(lower: Lower, v: Json, count0: nat) returns (ok: bool, count: nat)
    ensures ok <==> Legal(lower, v) && count0 + Nodes(v) <= 256
    ensures ok ==> count == count0 + Nodes(v)
    decreases v, 1
  {
    count := count0 + 1;
    if count > MAX_NESTED_ITEMS {
      return false, count;
    }
    match v {
      case Float => return false, count;
      case Other => return false, count;
      case Str(s) => return LegalText(s), count;
      case List(items) =>
        if |items| > 128 {
          return false, count;
        }
        ok, count := CheckItems(lower, v, items, count);
      case Object(keys, items) =>
        if |keys| != |items| || |items| > 64 || exists i :: 0 <= i < |keys| && !LegalKey(lower, keys[i]) {
          return false, count;
        }
        ok, count := CheckItems(lower, v, items, count);
      case _ => return true, count;
    }
  }

  method CheckItems(lower: Lower, ghost v: Json, items: seq<Json>, count0: nat) returns (ok: bool, count: nat)
    requires forall i :: 0 <= i < |items| ==> items[i] < v
    ensures ok <==> (forall i :: 0 <= i < |items| ==> Legal(lower, items[i])) && (items == [] || count0 + AllNodes(items) <= MAX_NESTED_ITEMS)
    ensures ok ==> count == count0 + AllNodes(items)
    decreases v, 0
  {
    count, ok := count0, true;
    for i := 0 to |items|
      invariant forall k :: 0 <= k < i ==> Legal(lower, items[k])
      invariant count == count0 + AllNodes(items[..i]) && (i == 0 || count <= MAX_NESTED_ITEMS)
    {
      AllNodesSplit(items, i);
      ok, count := CheckValue(lower, items[i], count);
      if !ok {
        return;
      }
    }
    assert items[..|items|] == items;
    ok := true;
  }

  /** A value and everything inside it. */
  predicate Occurs(w: Json, v: Json) {
    || w == v
    || (v.List? && exists i :: 0 <= i < |v.items| && Occurs(w, v.items[i]))
    || (v.Object? && exists i :: 0 <= i < |v.items| && Occurs(w, v.items[i]))
  }

  lemma {:induction false} ContainsExactly(s: string, part: string)
    ensures Contains(s, part) <==> Mentions(s, part)
  {
    assert s[0..] == s;
    if s != "" {
      ContainsExactly(s[1..], part);
      forall i | 0 < i <= |s| ensures part <= s[i..] <==> part <= s[1..][i - 1..] {
        assert s[1..][i - 1..] == s[i..];
      }
      if Mentions(s[1..], part) {
        var i :| 0 <= i <= |s[1..]| && part <= s[1..][i..];
        assert part <= s[i + 1..];
      }
    }
  }

  predicate Mentions(s: string, part: string) { exists i :: 0 <= i <= |s| && part <= s[i..] }

  /** What one value may be, apart from what is inside it: no float, text of at most 1024 characters without control
      characters but the tab, lists of at most 128, objects of at most 64 with keys of 1 to 128 characters that name no
      log and no reasoning. */
  predicate Admissible(lower: Lower, w: Json) {
    match w
    case Null => true
    case Bool(_) => true
    case Int(_) => true
    case Float => false
    case Other => false
    case Str(s) => |s| <= 1024 && forall i :: 0 <= i < |s| ==> s[i] as int >= 32 || s[i] as int == 9
    case List(items) => |items| <= 128
    case Object(keys, items) =>
      |keys| == |items| <= 64 && forall i :: 0 <= i < |keys| ==> AdmissibleKey(lower, keys[i])
  }

  predicate AdmissibleKey(lower: Lower, key: string) {
    && 1 <= |key| <= 128 && !Mentions(lower(key), "stdout") && !Mentions(lower(key), "stderr")
    && !Mentions(lower(key), "reasoning") && !Mentions(lower(key), "chain_of_thought") && !Mentions(lower(key), "raw_log")
  }

  lemma KeyExactly(lower: Lower, key: string)
    ensures LegalKey(lower, key) <==> AdmissibleKey(lower, key)
  {
    var all := FORBIDDEN_KEY_PARTS;
    assert all[0] == "stdout" && all[1] == "stderr" && all[2] == "reasoning" && all[3] == "chain_of_thought" && all[4] == "raw_log";
    forall k | 0 <= k < 5 ensures all[k] in FORBIDDEN_KEY_PARTS && (Contains(lower(key), all[k]) <==> Mentions(lower(key), all[k])) {
      ContainsExactly(lower(key), all[k]);
    }
  }

  /** The items a value holds directly. */
  function Items(v: Json): seq<Json> { if v.List? || v.Object? then v.items else [] }

  lemma LegalStep(lower: Lower, v: Json)
    ensures Legal(lower, v) <==> Admissible(lower, v) && forall i :: 0 <= i < |Items(v)| ==> Legal(lower, Items(v)[i])
  {
    match v
    case Str(s) =>
      assert forall i :: 0 <= i < |s| ==> (s[i] >= ' ' || s[i] == '\t' <==> s[i] as int >= 32 || s[i] as int == 9);
    case Object(keys, items) =>
      forall i | 0 <= i < |keys| ensures LegalKey(lower, keys[i]) <==> AdmissibleKey(lower, keys[i]) {
        KeyExactly(lower, keys[i]);
      }
      assert Items(v) == items;
    case List(items) =>
      assert Items(v) == items;
    case _ =>
  }

  ghost predicate AllAdmissible(lower: Lower, v: Json) { forall w :: Occurs(w, v) ==> Admissible(lower, w) }

  lemma OccursStep(w: Json, v: Json)
    ensures Occurs(w, v) <==> w == v || exists i :: 0 <= i < |Items(v)| && Occurs(w, Items(v)[i])
  {
    match v
    case List(items) =>
      assert Items(v) == items;
      forall i | 0 <= i < |items| && Occurs(w, items[i]) ensures Occurs(w, Items(v)[i]) {
      }
    case Object(_, items) =>
      assert Items(v) == items;
      forall i | 0 <= i < |items| && Occurs(w, items[i]) ensures Occurs(w, Items(v)[i]) {
      }
    case _ =>
  }

  lemma AdmissibleStep(lower: Lower, v: Json)
    ensures AllAdmissible(lower, v) <==> Admissible(lower, v) && forall i :: 0 <= i < |Items(v)| ==> AllAdmissible(lower, Items(v)[i])
  {
    OccursStep(v, v);
    if AllAdmissible(lower, v) {
      forall i, w | 0 <= i < |Items(v)| && Occurs(w, Items(v)[i]) ensures Admissible(lower, w) {
        OccursStep(w, v);
      }
    }
    if Admissible(lower, v) && forall i :: 0 <= i < |Items(v)| ==> AllAdmissible(lower, Items(v)[i]) {
      forall w | Occurs(w, v) ensures Admissible(lower, w) {
        OccursStep(w, v);
      }
    }
  }

  /** A value is legal exactly when everything in it, at any depth, is admissible. */
  lemma {:induction false} LegalExactly(lower: Lower, v: Json)
    ensures Legal(lower, v) <==> AllAdmissible(lower, v)
    decreases v
  {
    LegalStep(lower, v);
    AdmissibleStep(lower, v);
    forall i | 0 <= i < |Items(v)| ensures Legal(lower, Items(v)[i]) <==> AllAdmissible(lower, Items(v)[i]) {
      LegalExactly(lower, Items(v)[i]);
    }
  }

  /** Values are counted one by one, lists and objects with all they hold. */
  lemma NodesExactly(v: Json)
    ensures Nodes(v) == 1 + AllNodes(Items(v)) && AllNodes([v]) == Nodes(v)
  {
    assert [v][1..] == [];
  }

  lemma {:induction false} AllNodesJoin(a: seq<Json>, b: seq<Json>)
    ensures AllNodes(a + b) == AllNodes(a) + AllNodes(b)
  {
    if a == [] {
      assert a + b == b;
    } else {
      assert (a + b)[1..] == a[1..] + b;
      AllNodesJoin(a[1..], b);
    }
  }

  // --------------------------------------------------------------------- dictionaries

  /** The evidence record: `facts` holds the fields that both schema versions share. */
  datatype Evidence = Evidence(schema: string, role: string, binding: string, facts: map<string, Json>)

  type Dict = map<string, Json>

  const ROLE := "PRE_PUBLICATION_CONTENT_HEAD"
  const BINDING := "EXTERNAL_GIT_COMMIT"

  const FACT_FIELDS: set<string> := {
    "action", "actual_changed_paths", "base_main_sha", "blocked_execution_evidence", "candidate_head_sha",
    "candidate_stage_aios_managed_t2_execution_count", "certification_deferred", "executor_id", "full_canonical_owner",
    "pipeline_mode", "publication_trust_status", "review_risk_evidence", "semantic_review_required",
    "slice_c_impact_evidence", "targeted_test_status", "task_id", "transport_status", "validation_profile"
  }

  const V2_FIELDS: set<string> := {"schema_version", "candidate_head_role", "published_head_binding"}

  predicate JsonDict(d: Dict) { forall k :: k in d ==> IsJson(d[k]) }

  /** The record's own validation; `factsOk` stands for the checks on the shared fields, which let only JSON values pass. */
  predicate Valid(factsOk: Dict -> bool, e: Evidence) {
    && (e.schema == "1" || e.schema == "2")
    && (e.schema == "2" ==> e.role == ROLE && e.binding == BINDING)
    && e.facts.Keys == FACT_FIELDS && factsOk(e.facts) && JsonDict(e.facts)
  }

  function ToDict(e: Evidence): Dict {
    var common := e.facts["schema_version" := Str(e.schema)];
    if e.schema == "2" then common["candidate_head_role" := Str(e.role)]["published_head_binding" := Str(e.binding)] else common
  }

  function FromDict(factsOk: Dict -> bool, d: Dict): Option<Evidence> {
    if "schema_version" !in d || !d["schema_version"].Str? then None
    else
      var schema := d["schema_version"].s;
      var facts := FactsOf(d);
      var e :=
        if schema == "2" && d.Keys == FACT_FIELDS + V2_FIELDS && d["candidate_head_role"].Str? && d["published_head_binding"].Str? then
          Some(Evidence("2", d["candidate_head_role"].s, d["published_head_binding"].s, facts))
        else if schema == "1" && d.Keys == FACT_FIELDS + {"schema_version"} then Some(Evidence("1", ROLE, BINDING, facts))
        else None;
      if e.Some? && Valid(factsOk, e.value) then e else None
  }

  lemma DictKeys(e: Evidence)
    requires e.facts.Keys == FACT_FIELDS
    ensures ToDict(e).Keys == FACT_FIELDS + (if e.schema == "2" then V2_FIELDS else {"schema_version"})
    ensures ToDict(e)["schema_version"] == Str(e.schema)
    ensures e.schema == "2" ==> ToDict(e)["candidate_head_role"] == Str(e.role) && ToDict(e)["published_head_binding"] == Str(e.binding)
  {
  }

  function FactsOf(d: Dict): Dict { map k | k in d && k in FACT_FIELDS :: d[k] }

  lemma DictFacts(e: Evidence)
    requires e.facts.Keys == FACT_FIELDS
    ensures FactsOf(ToDict(e)) == e.facts
  {
    var d := ToDict(e);
    forall k | k in FACT_FIELDS ensures k in d && d[k] == e.facts[k] {
      assert k != "schema_version" && k != "candidate_head_role" && k != "published_head_binding";
    }
  }

  lemma ReadBack(factsOk: Dict -> bool, e: Evidence)
    requires Valid(factsOk, e)
    ensures FromDict(factsOk, ToDict(e)) == Some(if e.schema == "2" then e else Evidence("1", ROLE, BINDING, e.facts))
  {
    DictKeys(e);
    DictFacts(e);
  }

  /** A valid record survives its dictionary exactly when the dictionary mentions all of it: schema 1 drops the two
      head fields, which come back as their defaults. */
  lemma DictRoundTripExactly(factsOk: Dict -> bool, e: Evidence)
    requires Valid(factsOk, e)
    ensures FromDict(factsOk, ToDict(e)) == Some(e) <==> e.role == "PRE_PUBLICATION_CONTENT_HEAD" && e.binding == "EXTERNAL_GIT_COMMIT"
  {
    ReadBack(factsOk, e);
  }

  /** The shared fields in the order the record declares them. */
  const SHARED: set<string> := {
    "task_id", "action", "executor_id", "pipeline_mode", "candidate_head_sha", "base_main_sha", "validation_profile",
    "full_canonical_owner", "candidate_stage_aios_managed_t2_execution_count", "certification_deferred", "semantic_review_required",
    "targeted_test_status", "publication_trust_status", "transport_status", "actual_changed_paths", "slice_c_impact_evidence",
    "review_risk_evidence", "blocked_execution_evidence"
  }

  /** A dictionary reads as a record exactly when it has the fields of its schema, all of them and no others, schema 2 with
      the two fixed head fields, and its shared fields pass their checks; the record holds what the dictionary does. */
  lemma FromDictExactly(factsOk: Dict -> bool, d: Dict)
    ensures FromDict(factsOk, d).Some? <==>
            && "schema_version" in d && factsOk(FactsOf(d)) && JsonDict(FactsOf(d))
            && (|| (d["schema_version"] == Str("1") && d.Keys == SHARED + {"schema_version"})
                || (d["schema_version"] == Str("2") && d.Keys == SHARED + {"schema_version", "candidate_head_role", "published_head_binding"}
                    && d["candidate_head_role"] == Str("PRE_PUBLICATION_CONTENT_HEAD") && d["published_head_binding"] == Str("EXTERNAL_GIT_COMMIT")))
    ensures FromDict(factsOk, d).Some? ==>
              var e := FromDict(factsOk, d).value;
              && Str(e.schema) == d["schema_version"] && e.role == "PRE_PUBLICATION_CONTENT_HEAD" && e.binding == "EXTERNAL_GIT_COMMIT"
              && e.facts.Keys == SHARED && forall k :: k in SHARED ==> e.facts[k] == d[k]
  {
    assert SHARED == FACT_FIELDS;
  }

  // -------------------------------------------------------------------- publication

  const MARKER := "RESULT_EVIDENCE_JSON:"

  /** The JSON printer and reader. */
  datatype Printer = Printer(print_: Dict -> string, parse: string -> Option<Dict>)

  function Payload(json: string, n: nat): string
    requires n <= |json|
  {
    Strip(" " + json[..n])
  }

  predicate Braced(j: string) { |j| >= 2 && j[0] == '{' && j[|j| - 1] == '}' }

  /** An inverse pair on dictionaries of JSON values: braces at both ends, and no shorter beginning of an object reads
      as one. */
  ghost predicate Inverse(p: Printer) {
    && (forall d :: JsonDict(d) ==> Braced(p.print_(d)) && p.parse(p.print_(d)) == Some(d))
    && (forall d, n :: JsonDict(d) && 0 <= n < |p.print_(d)| ==> p.parse(Payload(p.print_(d), n)).None?)
  }

  lemma DictIsJson(e: Evidence)
    requires JsonDict(e.facts)
    ensures JsonDict(ToDict(e))
  {
  }

  /** `parse_result_evidence`: exactly one unfenced marker, then JSON, then the record. */
  function Parse(p: Printer, factsOk: Dict -> bool, text: string): Option<Evidence> {
    var payloads := Scan(true, None, SplitLines(text), MARKER);
    if |payloads| != 1 then None
    else match p.parse(payloads[0])
         case None => None
         case Some(d) => FromDict(factsOk, d)
  }

  method ParseResultEvidence(p: Printer, factsOk: Dict -> bool, text: string) returns (r: Option<Evidence>)
    ensures r == Parse(p, factsOk, text)
  {
    var payloads := EvidencePayloads(text, MARKER);
    if |payloads| != 1 {
      return None;
    }
    var d := p.parse(payloads[0]);
    if d.None? {
      return None;
    }
    r := FromDict(factsOk, d.value);
  }

  /** A record is read exactly when one line outside every fence carries the marker, what follows it is JSON, and that is
      the record's dictionary. */
  lemma ParseExactly(p: Printer, factsOk: Dict -> bool, text: string, e: Evidence)
    ensures Parse(p, factsOk, text) == Some(e) <==>
            exists payload :: Scan(true, None, SplitLines(text), "RESULT_EVIDENCE_JSON:") == [payload]
                              && p.parse(payload).Some? && FromDict(factsOk, p.parse(payload).value) == Some(e)
  {
    var payloads := Scan(true, None, SplitLines(text), MARKER);
    if |payloads| == 1 {
      assert payloads == [payloads[0]];
    }
  }

  /** Prose around the marker: whole lines that open no fence and hold no marker. */
  predicate Prose(lines: seq<string>) {
    forall i :: 0 <= i < |lines| ==> OneLine(lines[i]) && FenceLine(lines[i]).None? && !StartsWith(lines[i], MARKER)
  }

  /** The published file: prose, the marker line, prose. */
  function Publish(p: Printer, e: Evidence, before: seq<string>, after: seq<string>): string {
    JoinLines(before) + (MARKER + " " + p.print_(ToDict(e)) + "\n") + JoinLines(after)
  }

  lemma {:induction false} ProseScans(lines: seq<string>)
    requires Prose(lines)
    ensures Scan(true, None, lines, MARKER) == [] && After(true, None, lines) == None
  {
    if lines != [] {
      ProseScans(lines[1..]);
    }
  }

  lemma MarkerIsNoFence(rest: string)
    ensures FenceLine(MARKER + rest).None? && StartsWith(MARKER + rest, MARKER) && (MARKER + rest)[|MARKER|..] == rest
  {
    assert (MARKER + rest)[0] == 'R';
  }

  lemma {:induction false} FirstLine(line: string, c: char, rest: string)
    requires OneLine(line) && IsBreak(c)
    ensures var lines := SplitLines(line + [c] + rest); lines != [] && lines[0] == line
  {
    var s := line + [c] + rest;
    if |line| == 1 {
      assert s[0] == line[0] && s[1] == c && [s[0]] == line;
    } else if |line| > 1 {
      assert s[0] == line[0] && s[1] == line[1] && s[1..] == line[1..] + [c] + rest;
      FirstLine(line[1..], c, rest);
      assert [line[0]] + line[1..] == line;
    }
  }

  function FirstBreak(s: string): nat
    requires !OneLine(s)
  {
    if IsBreak(s[0]) then 0 else
    assert !OneLine(s[1..]) by {
      var i :| 0 <= i < |s| && IsBreak(s[i]);
      assert s[1..][i - 1] == s[i];
    }
    1 + FirstBreak(s[1..])
  }

  lemma {:induction false} FirstBreakIs(s: string)
    requires !OneLine(s)
    ensures var k := FirstBreak(s); k < |s| && IsBreak(s[k]) && OneLine(s[..k])
  {
    if !IsBreak(s[0]) {
      assert !OneLine(s[1..]) by {
        var i :| 0 <= i < |s| && IsBreak(s[i]);
        assert s[1..][i - 1] == s[i];
      }
      FirstBreakIs(s[1..]);
      var k := FirstBreak(s);
      assert forall i :: 0 < i < k ==> s[..k][i] == s[1..][..k - 1][i - 1];
    }
  }

  lemma OneLineJoin(a: string, b: string)
    ensures OneLine(a + b) <==> OneLine(a) && OneLine(b)
  {
    if OneLine(a + b) {
      assert forall i :: 0 <= i < |a| ==> a[i] == (a + b)[i];
      assert forall i :: 0 <= i < |b| ==> b[i] == (a + b)[|a| + i];
    }
  }

  /** The lines of a text whose marker line is followed by `tail`, and what scanning them finds first. */
  lemma ScanPublished(before: seq<string>, rest: string, tail: seq<string>)
    requires Prose(before)
    ensures Scan(true, None, before + [MARKER + rest] + tail, MARKER) == [Strip(rest)] + Scan(true, None, tail, MARKER)
  {
    var line := MARKER + rest;
    MarkerIsNoFence(rest);
    ProseScans(before);
    ScanJoin(true, None, before + [line], tail, MARKER);
    ScanSnoc(true, before, line, MARKER);
  }

  lemma PayloadWhole(json: string)
    requires Braced(json)
    ensures Strip(" " + json) == json
  {
    assert (" " + json)[1..] == json;
    StripFixed(json);
  }

  lemma Regroup(a: string, m: string, sp: string, j: string, nl: string, z: string)
    ensures a + (m + sp + j + nl) + z == a + (m + (sp + j) + nl + z)
  {
  }

  lemma RegroupBreak(line: string, front: string, c: char, back: string, nl: string, z: string)
    ensures line + (front + [c] + back) + nl + z == line + front + [c] + (back + nl + z)
  {
  }

  lemma LineBetween(before: seq<string>, line: string, after: seq<string>)
    requires WholeLines(before) && WholeLines(after) && OneLine(line)
    ensures SplitLines(JoinLines(before) + (line + "\n" + JoinLines(after))) == before + [line] + after
  {
    LineThenLines(line, after);
    LinesThen(before, line + "\n" + JoinLines(after), line, after);
  }

  lemma LinesThen(before: seq<string>, rest: string, line: string, after: seq<string>)
    requires WholeLines(before) && SplitLines(rest) == [line] + after
    ensures SplitLines(JoinLines(before) + rest) == before + [line] + after
  {
    JoinAppend(before, rest);
    assert before + ([line] + after) == before + [line] + after;
  }

  lemma LineThenLines(line: string, after: seq<string>)
    requires WholeLines(after) && OneLine(line)
    ensures SplitLines(line + "\n" + JoinLines(after)) == [line] + after
  {
    SplitLine(line, JoinLines(after));
    SplitJoined(after);
  }

  lemma LineCut(before: seq<string>, line: string, c: char, rest: string) returns (tail: seq<string>)
    requires WholeLines(before) && OneLine(line) && IsBreak(c)
    ensures SplitLines(JoinLines(before) + (line + [c] + rest)) == before + [line] + tail
  {
    FirstLine(line, c, rest);
    var lines := SplitLines(line + [c] + rest);
    tail := lines[1..];
    assert lines == [line] + tail;
    LinesThen(before, line + [c] + rest, line, tail);
  }

  lemma MarkerLine(json: string)
    ensures OneLine(MARKER + (" " + json)) <==> OneLine(json)
  {
    OneLineJoin(" ", json);
    OneLineJoin(MARKER, " " + json);
  }

  /** A text whose marker line is whole splits into its lines. */
  lemma WholeMarkerLines(before: seq<string>, json: string, after: seq<string>)
    requires Prose(before) && Prose(after) && OneLine(json)
    ensures SplitLines(JoinLines(before) + (MARKER + " " + json + "\n") + JoinLines(after)) == before + [MARKER + (" " + json)] + after
  {
    Regroup(JoinLines(before), MARKER, " ", json, "\n", JoinLines(after));
    MarkerLine(json);
    LineBetween(before, MARKER + (" " + json), after);
  }

  /** A text whose JSON breaks at `k` splits into a marker line cut there, and something more. */
  lemma CutLines(before: seq<string>, json: string, after: string, k: nat) returns (tail: seq<string>)
    requires Prose(before) && k < |json| && IsBreak(json[k]) && OneLine(json[..k])
    ensures SplitLines(JoinLines(before) + (MARKER + " " + json + "\n") + after) == before + [MARKER + (" " + json[..k])] + tail
  {
    Regroup(JoinLines(before), MARKER, " ", json, "\n", after);
    CutText(json, k, after);
    MarkerLine(json[..k]);
    tail := LineCut(before, MARKER + (" " + json[..k]), json[k], json[k + 1..] + "\n" + after);
  }

  lemma CutText(json: string, k: nat, after: string)
    requires k < |json|
    ensures MARKER + (" " + json) + "\n" + after == MARKER + (" " + json[..k]) + [json[k]] + (json[k + 1..] + "\n" + after)
  {
    assert json == json[..k] + [json[k]] + json[k + 1..];
    assert MARKER + (" " + json) == MARKER + " " + json && MARKER + (" " + json[..k]) == MARKER + " " + json[..k];
    RegroupBreak(MARKER + " ", json[..k], json[k], json[k + 1..], "\n", after);
  }

  lemma OneLineReadsBack(p: Printer, factsOk: Dict -> bool, e: Evidence, before: seq<string>, after: seq<string>)
    requires Inverse(p) && Prose(before) && Prose(after) && JsonDict(e.facts) && OneLine(p.print_(ToDict(e)))
    ensures Parse(p, factsOk, Publish(p, e, before, after)) == FromDict(factsOk, ToDict(e))
  {
    var json := p.print_(ToDict(e));
    DictIsJson(e);
    WholeMarkerLines(before, json, after);
    ScanPublished(before, " " + json, after);
    ProseScans(after);
    PayloadWhole(json);
  }

  lemma BrokenLineIsRejected(p: Printer, factsOk: Dict -> bool, e: Evidence, before: seq<string>, after: seq<string>)
    requires Inverse(p) && Prose(before) && JsonDict(e.facts) && !OneLine(p.print_(ToDict(e)))
    ensures Parse(p, factsOk, Publish(p, e, before, after)).None?
  {
    var json := p.print_(ToDict(e));
    DictIsJson(e);
    FirstBreakIs(json);
    var k := FirstBreak(json);
    var tail := CutLines(before, json, JoinLines(after), k);
    ScanPublished(before, " " + json[..k], tail);
    assert Payload(json, k) == Strip(" " + json[..k]);
  }

  /** Evidence round trip: a published record reads back as the same record exactly when its JSON has no line
      boundary in it. */
  lemma PublishedRoundTripExactly(p: Printer, factsOk: Dict -> bool, e: Evidence, before: seq<string>, after: seq<string>)
    requires Inverse(p) && Prose(before) && Prose(after) && Valid(factsOk, e) && e.schema == "2"
    ensures Parse(p, factsOk, Publish(p, e, before, after)) == Some(e) <==> OneLine(p.print_(ToDict(e)))
  {
    DictRoundTripExactly(factsOk, e);
    if OneLine(p.print_(ToDict(e))) {
      OneLineReadsBack(p, factsOk, e, before, after);
    } else {
      BrokenLineIsRejected(p, factsOk, e, before, after);
    }
  }

  /** The value check lets such a boundary through: U+2028 is legal text and no single line. */
  lemma LegalTextMayBreakLines(lower: Lower)
    ensures Legal(lower, Str("a\U{2028}b")) && Nodes(Str("a\U{2028}b")) == 1 && !OneLine("a\U{2028}b")
  {
    assert "a\U{2028}b"[1] == '\U{2028}';
  }
}
