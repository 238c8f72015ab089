/** `git diff --name-status -z` and `git ls-files -z`: every path they name, and what becomes of a listing
    that is cut short. */
module NameStatus {
  import opened Options
  import opened SortedStrings
  import opened Text

  type Byte = b: int | 0 <= b < 256 witness 0
  type Bytes = seq<Byte>

  const NUL: Byte := 0

  /** Strict UTF-8 decoding. */
  type Decoder = Bytes -> Option<string>

  predicate IsDigit(b: Byte) { '0' as int <= b <= '9' as int }
  predicate IsLetter(b: Byte, letters: string) { exists i :: 0 <= i < |letters| && letters[i] as int == b }

  /** The status pattern: one letter, or R or C with one to three digits. */
  predicate IsStatus(s: Bytes) {
    || (|s| == 1 && IsLetter(s[0], "ACDMRTUXB"))
    || (2 <= |s| <= 4 && IsLetter(s[0], "RC") && forall i :: 1 <= i < |s| ==> IsDigit(s[i]))
  }

  /** Renames and copies name two paths. */
  function PathCount(s: Bytes): nat
    requires IsStatus(s)
  {
    if IsLetter(s[0], "RC") then 2 else 1
  }

  /** By byte: one of A B C D M R T U X, or R or C and one to three digits; the latter two letters name two paths. */
  lemma StatusExactly(s: Bytes)
    ensures IsStatus(s) <==>
            || (|s| == 1 && s[0] in {65, 66, 67, 68, 77, 82, 84, 85, 88})
            || (|s| in {2, 3, 4} && s[0] in {67, 82} && forall i :: 1 <= i < |s| ==> 48 <= s[i] <= 57)
    ensures IsStatus(s) ==> PathCount(s) == if s[0] == 67 || s[0] == 82 then 2 else 1
  {
    if s != [] {
      LettersExactly(s[0]);
    }
  }

  lemma LettersExactly(b: Byte)
    ensures IsLetter(b, "ACDMRTUXB") <==> b in {65, 66, 67, 68, 77, 82, 84, 85, 88}
    ensures IsLetter(b, "RC") <==> b in {67, 82}
  {
    var all, two := "ACDMRTUXB", "RC";
    assert all[0] as int == 65 && all[1] as int == 67 && all[2] as int == 68 && all[3] as int == 77 && all[4] as int == 82;
    assert all[5] as int == 84 && all[6] as int == 85 && all[7] as int == 88 && all[8] as int == 66;
    assert two[0] as int == 82 && two[1] as int == 67;
  }

  datatype Change = Change(status: Bytes, paths: seq<Bytes>)

  predicate WellFormed(e: Change) { IsStatus(e.status) && |e.paths| == PathCount(e.status) }

  predicate AllWellFormed(es: seq<Change>) { forall i :: 0 <= i < |es| ==> WellFormed(es[i]) }

  function Fields(es: seq<Change>): seq<Bytes> {
    if es == [] then [] else [es[0].status] + es[0].paths + Fields(es[1..])
  }

  /** Every path the list names, both sides of renames and copies. */
  function Named(es: seq<Change>): seq<Bytes> {
    if es == [] then [] else es[0].paths + Named(es[1..])
  }

  function Both(a: Option<seq<string>>, b: Option<seq<string>>): Option<seq<string>> {
    if a.None? || b.None? then None else Some(a.value + b.value)
  }

  lemma BothAssociates(a: Option<seq<string>>, b: Option<seq<string>>, c: Option<seq<string>>)
    ensures Both(Both(a, b), c) == Both(a, Both(b, c))
  {
    if a.Some? && b.Some? && c.Some? {
      assert a.value + b.value + c.value == a.value + (b.value + c.value);
    }
  }

  function DecodeOne(utf8: Decoder, raw: Bytes): Option<seq<string>> {
    if utf8(raw).None? then None else Some([utf8(raw).value])
  }

  function DecodeAll(utf8: Decoder, raw: seq<Bytes>): Option<seq<string>> {
    if raw == [] then Some([]) else Both(DecodeOne(utf8, raw[0]), DecodeAll(utf8, raw[1..]))
  }

  lemma FirstChange(e: Change, es: seq<Change>)
    ensures Fields([e] + es) == [e.status] + e.paths + Fields(es)
    ensures AllWellFormed([e] + es) <==> WellFormed(e) && AllWellFormed(es)
  {
    var all := [e] + es;
    assert all[1..] == es && all[0] == e && forall i :: 0 <= i < |es| ==> all[i + 1] == es[i];
  }

  /** The list of changes a field list spells, if it spells one. */
  function Parse(fields: seq<Bytes>): (r: Option<seq<Change>>)
    ensures r.Some? ==> AllWellFormed(r.value) && Fields(r.value) == fields
  {
    if fields == [] then Some([])
    else if !IsStatus(fields[0]) then None
    else
      var n := PathCount(fields[0]);
      if 1 + n > |fields| then None
      else
        var rest := Parse(fields[1 + n..]);
        if rest.None? then None
        else
          FirstChange(Change(fields[0], fields[1..1 + n]), rest.value);
          assert fields == [fields[0]] + fields[1..1 + n] + fields[1 + n..];
          Some([Change(fields[0], fields[1..1 + n])] + rest.value)
  }

  lemma ParseFirst(e: Change, rest: seq<Bytes>)
    requires WellFormed(e)
    ensures Parse([e.status] + e.paths + rest) == match Parse(rest) case None => None case Some(es) => Some([e] + es)
  {
    var all := [e.status] + e.paths + rest;
    assert all[0] == e.status && all[1..1 + |e.paths|] == e.paths && all[1 + |e.paths|..] == rest;
  }

  /** Parsing is exact: a field list is accepted exactly when it spells well-formed changes, and those are the ones. */
  lemma {:induction false} ParseExact(es: seq<Change>)
    requires AllWellFormed(es)
    ensures Parse(Fields(es)) == Some(es)
  {
    if es != [] {
      ParseExact(es[1..]);
      ParseFirst(es[0], Fields(es[1..]));
      assert [es[0]] + es[1..] == es;
    }
  }

  lemma {:induction false} FieldsJoin(a: seq<Change>, b: seq<Change>)
    ensures Fields(a + b) == Fields(a) + Fields(b)
  {
    if a == [] {
      assert a + b == b;
    } else {
      FieldsJoin(a[1..], b);
      assert (a + b)[1..] == a[1..] + b;
      var head := [a[0].status] + a[0].paths;
      assert head + (Fields(a[1..]) + Fields(b)) == head + Fields(a[1..]) + Fields(b);
    }
  }

  lemma {:induction false} FieldsShorter(a: seq<Change>, b: seq<Change>)
    requires AllWellFormed(a) && AllWellFormed(b) && Fields(a) <= Fields(b)
    ensures a <= b
  {
    if a != [] {
      assert Fields(b) != [];
      var m, n := |a[0].paths|, |b[0].paths|;
      assert Fields(a)[0] == Fields(b)[0];
      assert Fields(a)[1..1 + m] == a[0].paths && Fields(b)[1..1 + n] == b[0].paths;
      assert a[0] == b[0];
      assert Fields(a)[1 + m..] == Fields(a[1..]) && Fields(b)[1 + n..] == Fields(b[1..]);
      FieldsShorter(a[1..], b[1..]);
      assert a == [a[0]] + a[1..] && b == [b[0]] + b[1..];
    }
  }

  /** A list cut after `k` fields is accepted exactly when the cut falls between two changes: every list that is
      truncated inside a change is rejected. */
  lemma TruncationRejected(es: seq<Change>, k: nat)
    requires AllWellFormed(es) && k <= |Fields(es)|
    ensures Parse(Fields(es)[..k]).Some? <==> exists m :: 0 <= m <= |es| && |Fields(es[..m])| == k
  {
    if Parse(Fields(es)[..k]).Some? {
      var m := ParsedIsPrefix(es, k);
    }
    if m :| 0 <= m <= |es| && |Fields(es[..m])| == k {
      PrefixParses(es, m);
    }
  }

  lemma ParsedIsPrefix(es: seq<Change>, k: nat) returns (m: nat)
    requires AllWellFormed(es) && k <= |Fields(es)| && Parse(Fields(es)[..k]).Some?
    ensures m <= |es| && |Fields(es[..m])| == k
  {
    var got := Parse(Fields(es)[..k]).value;
    FieldsShorter(got, es);
    m := |got|;
    assert es[..m] == got;
  }

  lemma PrefixParses(es: seq<Change>, m: nat)
    requires AllWellFormed(es) && m <= |es|
    ensures |Fields(es[..m])| <= |Fields(es)| && Parse(Fields(es)[..|Fields(es[..m])|]).Some?
  {
    FieldsJoin(es[..m], es[m..]);
    assert es[..m] + es[m..] == es;
    assert Fields(es)[..|Fields(es[..m])|] == Fields(es[..m]);
    ParseExact(es[..m]);
  }

  // ----------------------------------------------------------------- the collector

  function DropLastEmpty(fields: seq<Bytes>): seq<Bytes> {
    if fields != [] && fields[|fields| - 1] == [] then fields[..|fields| - 1] else fields
  }

  function NonEmpty(raw: seq<Bytes>): seq<Bytes> {
    if raw == [] then [] else (if raw[0] == [] then [] else [raw[0]]) + NonEmpty(raw[1..])
  }

  /** Every path of both listings, sorted and without repetition; None is a raised error. */
  function Collected(utf8: Decoder, tracked: Bytes, untracked: Bytes): Option<seq<string>> {
    var changes := Parse(DropLastEmpty(SplitOn(tracked, NUL)));
    if changes.None? then None
    else
      var a, b := DecodeAll(utf8, Named(changes.value)), DecodeAll(utf8, NonEmpty(SplitOn(untracked, NUL)));
      if Both(a, b).None? then None else Some(SortedSet(Both(a, b).value))
  }

  lemma {:induction false} DecodeJoin(utf8: Decoder, a: seq<Bytes>, b: seq<Bytes>)
    ensures DecodeAll(utf8, a + b) == Both(DecodeAll(utf8, a), DecodeAll(utf8, b))
  {
    if a == [] {
      assert a + b == b;
      NothingFirst(DecodeAll(utf8, b));
    } else {
      DecodeJoin(utf8, a[1..], b);
      assert (a + b)[1..] == a[1..] + b;
      BothAssociates(DecodeOne(utf8, a[0]), DecodeAll(utf8, a[1..]), DecodeAll(utf8, b));
    }
  }

  lemma NothingFirst(r: Option<seq<string>>)
    ensures Both(Some([]), r) == r && Both(r, Some([])) == r
  {
    if r.Some? {
      assert [] + r.value == r.value && r.value + [] == r.value;
    }
  }

  /** What the tracked listing alone yields. */
  function TrackedNames(utf8: Decoder, fields: seq<Bytes>): Option<seq<string>> {
    if Parse(fields).None? then None else DecodeAll(utf8, Named(Parse(fields).value))
  }

  lemma TrackedStep(utf8: Decoder, fields: seq<Bytes>)
    requires fields != []
    ensures TrackedNames(utf8, fields) ==
            if !IsStatus(fields[0]) || 1 + PathCount(fields[0]) > |fields| then None
            else
              var n := PathCount(fields[0]);
              Both(DecodeAll(utf8, fields[1..1 + n]), TrackedNames(utf8, fields[1 + n..]))
  {
    if IsStatus(fields[0]) && 1 + PathCount(fields[0]) <= |fields| {
      var n := PathCount(fields[0]);
      if Parse(fields[1 + n..]).Some? {
        DecodeJoin(utf8, fields[1..1 + n], Named(Parse(fields[1 + n..]).value));
      }
    }
  }

  /** Decode the paths of one change. */
  method DecodePaths(utf8: Decoder, raw: seq<Bytes>) returns (r: Option<seq<string>>)
    ensures r == DecodeAll(utf8, raw)
  {
    var out: seq<string> := [];
    NothingFirst(DecodeAll(utf8, raw));
    assert raw[0..] == raw;
    for i := 0 to |raw|
      invariant DecodeAll(utf8, raw) == Both(Some(out), DecodeAll(utf8, raw[i..]))
    {
      assert raw[i..][1..] == raw[i + 1..];
      BothAssociates(Some(out), DecodeOne(utf8, raw[i]), DecodeAll(utf8, raw[i + 1..]));
      var path := utf8(raw[i]);
      if path.None? {
        return None;
      }
      out := out + [path.value];
    }
    assert raw[|raw|..] == [];
    NothingFirst(Some(out));
    r := Some(out);
  }

  lemma SliceShift(fields: seq<Bytes>, index: nat, count: nat)
    requires index + 1 + count <= |fields|
    ensures fields[index..][1..1 + count] == fields[index + 1..index + 1 + count]
    ensures fields[index..][1 + count..] == fields[index + 1 + count..]
  {
  }

  /** The index loop over the tracked fields. */
  method CollectTracked(utf8: Decoder, fields: seq<Bytes>) returns (r: Option<seq<string>>)
    ensures r == TrackedNames(utf8, fields)
  {
    var paths: seq<string> := [];
    var index := 0;
    assert fields[0..] == fields;
    NothingFirst(TrackedNames(utf8, fields));
    while index < |fields|
      invariant index <= |fields|
      invariant TrackedNames(utf8, fields) == Both(Some(paths), TrackedNames(utf8, fields[index..]))
    {
      ghost var rest := fields[index..];
      TrackedStep(utf8, rest);
      var status := fields[index];
      if !IsStatus(status) {
        return None;
      }
      var count := PathCount(status);
      if index + 1 + count > |fields| {
        return None;
      }
      SliceShift(fields, index, count);
      var names := DecodePaths(utf8, fields[index + 1..index + 1 + count]);
      BothAssociates(Some(paths), names, TrackedNames(utf8, rest[1 + count..]));
      if names.None? {
        return None;
      }
      paths := paths + names.value;
      index := index + 1 + count;
    }
    assert fields[index..] == [];
    NothingFirst(Some(paths));
    r := Some(paths);
  }

  /** `collect_e4_dirty_paths` on the bytes Git printed. */
  method CollectDirtyPaths(utf8: Decoder, tracked: Bytes, untracked: Bytes) returns (r: Option<seq<string>>)
    ensures r == Collected(utf8, tracked, untracked)
  {
    var fields := SplitOn(tracked, NUL);
    if fields[|fields| - 1] == [] {
      fields := fields[..|fields| - 1];
    }
    var names := CollectTracked(utf8, fields);
    if names.None? {
      return None;
    }
    var others := DecodePaths(utf8, NonEmpty(SplitOn(untracked, NUL)));
    if others.None? {
      return None;
    }
    r := Some(SortedSet(names.value + others.value));
  }

  // --------------------------------------------------------------------- round trip

  predicate Printable(raw: seq<Bytes>) { forall i :: 0 <= i < |raw| ==> Free(raw[i], NUL) && raw[i] != [] }

  lemma {:induction false} NonEmptyAll(raw: seq<Bytes>)
    requires Printable(raw)
    ensures NonEmpty(raw + [[]]) == raw
  {
    if raw != [] {
      NonEmptyAll(raw[1..]);
      assert (raw + [[]])[1..] == raw[1..] + [[]];
    }
  }

  lemma {:induction false} FieldsPrintable(es: seq<Change>)
    requires AllWellFormed(es) && Printable(Named(es))
    ensures Printable(Fields(es))
  {
    if es != [] {
      assert forall i :: 0 <= i < |es[0].paths| ==> Named(es)[i] == es[0].paths[i];
      assert forall i :: 0 <= i < |Named(es[1..])| ==> Named(es)[|es[0].paths| + i] == Named(es[1..])[i];
      FieldsPrintable(es[1..]);
      assert Free(es[0].status, NUL);
    }
  }

  /** Whatever changes and untracked paths Git prints, collecting returns exactly the ascending duplicate-free list
      of every path they name, and fails only on a path that is not UTF-8. */
  lemma CollectsEveryPath(utf8: Decoder, es: seq<Change>, others: seq<Bytes>)
    requires AllWellFormed(es) && Printable(Named(es)) && Printable(others)
    ensures var got := Collected(utf8, Terminated(Fields(es), NUL), Terminated(others, NUL));
            var want := DecodeAll(utf8, Named(es) + others);
            && (got.Some? <==> want.Some?)
            && (got.Some? ==> Ascending(got.value) && Elements(got.value) == Elements(want.value))
  {
    FieldsPrintable(es);
    SplitTerminated(Fields(es), NUL);
    assert DropLastEmpty(Fields(es) + [[]]) == Fields(es);
    ParseExact(es);
    SplitTerminated(others, NUL);
    NonEmptyAll(others);
    DecodeJoin(utf8, Named(es), others);
  }

  /** `raw` is a path of some change, on either side of a rename or copy, or an untracked one. */
  predicate Names(es: seq<Change>, others: seq<Bytes>, raw: Bytes) {
    raw in others || exists i :: 0 <= i < |es| && raw in es[i].paths
  }

  lemma {:induction false} NamedExactly(es: seq<Change>, raw: Bytes)
    ensures raw in Named(es) <==> exists i :: 0 <= i < |es| && raw in es[i].paths
  {
    if es != [] {
      NamedExactly(es[1..], raw);
      assert forall i :: 0 < i < |es| ==> es[i] == es[1..][i - 1];
    }
  }

  lemma {:induction false} DecodesEach(utf8: Decoder, raw: seq<Bytes>)
    ensures DecodeAll(utf8, raw).Some? <==> forall i :: 0 <= i < |raw| ==> utf8(raw[i]).Some?
    ensures DecodeAll(utf8, raw).Some? ==>
              && |DecodeAll(utf8, raw).value| == |raw|
              && forall i :: 0 <= i < |raw| ==> utf8(raw[i]) == Some(DecodeAll(utf8, raw).value[i])
  {
    if raw != [] {
      DecodesEach(utf8, raw[1..]);
      assert forall i :: 0 < i < |raw| ==> raw[i] == raw[1..][i - 1];
    }
  }

  /** In other words: collecting succeeds exactly when every path that is named is UTF-8, and then a path is in the
      ascending result exactly when it is named. */
  lemma CollectsExactly(utf8: Decoder, es: seq<Change>, others: seq<Bytes>)
    requires AllWellFormed(es) && Printable(Named(es)) && Printable(others)
    ensures var got := Collected(utf8, Terminated(Fields(es), NUL), Terminated(others, NUL));
            && (got.Some? <==> forall raw :: Names(es, others, raw) ==> utf8(raw).Some?)
            && (got.Some? ==> Ascending(got.value) && forall p :: p in got.value <==> exists raw :: Names(es, others, raw) && utf8(raw) == Some(p))
  {
    CollectsEveryPath(utf8, es, others);
    var all := Named(es) + others;
    DecodesEach(utf8, all);
    forall raw ensures raw in all <==> Names(es, others, raw) {
      NamedExactly(es, raw);
    }
    if DecodeAll(utf8, all).Some? {
      CollectedAre(utf8, all, Collected(utf8, Terminated(Fields(es), NUL), Terminated(others, NUL)).value);
    }
  }

  lemma CollectedAre(utf8: Decoder, all: seq<Bytes>, got: seq<string>)
    requires DecodeAll(utf8, all).Some? && Elements(got) == Elements(DecodeAll(utf8, all).value)
    ensures forall p :: p in got <==> exists raw :: raw in all && utf8(raw) == Some(p)
  {
    DecodesEach(utf8, all);
    var want := DecodeAll(utf8, all).value;
    forall p ensures p in got <==> exists raw :: raw in all && utf8(raw) == Some(p) {
      assert p in got <==> p in Elements(want);
      if p in want {
        var i :| 0 <= i < |want| && want[i] == p;
        assert all[i] in all && utf8(all[i]) == Some(p);
      }
      if raw :| raw in all && utf8(raw) == Some(p) {
        var i :| 0 <= i < |all| && all[i] == raw;
        assert want[i] == p;
      }
    }
  }

  lemma OneChange(utf8: Decoder, status: Bytes, path: Bytes, text: string)
    requires IsStatus(status) && PathCount(status) == 1 && utf8(path) == Some(text)
    ensures TrackedNames(utf8, [status, path]) == Some([text])
  {
    var fields := [status, path];
    TrackedStep(utf8, fields);
    assert fields[1..2] == [path] && fields[2..] == [];
    NothingFirst(Some([text]));
  }

  /** A cut inside a path's bytes, unlike one between fields, goes unnoticed: "M NUL ab NUL" cut to "M NUL a". */
  lemma ByteCutAccepted(utf8: Decoder)
    requires utf8([97]) == Some("a")
    ensures Collected(utf8, [77, 0, 97], []) == Some(["a"])
  {
    var m: Bytes, a: Bytes := [77], [97];
    SplitFirst(m, a, NUL);
    assert m + [NUL] + a == [77, 0, 97];
    assert SplitOn(a, NUL) == [a] by {
      assert [a[0]] + [] == a;
    }
    assert [m] + [a] == [m, a];
    assert "ACDMRTUXB"[3] as int == 77;
    OneChange(utf8, [77], [97], "a");
    NothingFirst(Some(["a"]));
    assert NonEmpty(SplitOn([], NUL)) == [];
    assert SortedSet(["a"]) == ["a"] by {
      assert ["a"][1..] == [];
    }
  }

  // --------------------------------------------------------------- cuts inside the bytes

  function Wire(fields: seq<Bytes>): Bytes { Terminated(fields, NUL) }

  lemma {:induction false} WireJoin(a: seq<Bytes>, b: seq<Bytes>)
    ensures Wire(a + b) == Wire(a) + Wire(b)
  {
    if a == [] {
      assert a + b == b;
    } else {
      WireJoin(a[1..], b);
      assert (a + b)[1..] == a[1..] + b;
      var head := a[0] + [NUL];
      assert head + (Wire(a[1..]) + Wire(b)) == head + Wire(a[1..]) + Wire(b);
    }
  }

  /** The cut after `k` bytes lies behind `j` whole fields and `r` bytes of the next. */
  predicate At(fields: seq<Bytes>, k: nat, j: nat, r: nat) {
    j <= |fields| && k == |Wire(fields[..j])| + r && if j < |fields| then r <= |fields[j]| else r == 0
  }

  lemma WireStep(fields: seq<Bytes>, j: nat)
    requires j < |fields|
    ensures Wire(fields[..j + 1]) == Wire(fields[..j]) + fields[j] + [NUL]
  {
    assert fields[..j + 1] == fields[..j] + [fields[j]];
    WireJoin(fields[..j], [fields[j]]);
    var one := [fields[j]];
    assert one[1..] == [] && Terminated(one[1..], NUL) == [];
    assert Terminated(one, NUL) == one[0] + [NUL] + Terminated(one[1..], NUL);
  }

  lemma {:induction false} WireGrows(fields: seq<Bytes>, i: nat, j: nat)
    requires i <= j <= |fields|
    ensures |Wire(fields[..i])| <= |Wire(fields[..j])|
  {
    if i < j {
      WireGrows(fields, i, j - 1);
      WireStep(fields, j - 1);
    }
  }

  /** A cut is at one place only. */
  lemma PlaceUnique(fields: seq<Bytes>, k: nat, j: nat, r: nat, j': nat, r': nat)
    requires At(fields, k, j, r) && At(fields, k, j', r')
    ensures j == j' && r == r'
  {
    if j < j' {
      WireStep(fields, j);
      WireGrows(fields, j + 1, j');
    } else if j' < j {
      WireStep(fields, j');
      WireGrows(fields, j' + 1, j);
    }
  }

  lemma {:induction false} Place(fields: seq<Bytes>, k: nat, from: nat) returns (j: nat, r: nat)
    requires from <= |fields| && |Wire(fields[..from])| <= k <= |Wire(fields)|
    ensures At(fields, k, j, r)
    decreases |fields| - from
  {
    if from == |fields| {
      assert fields[..from] == fields;
      j, r := from, 0;
    } else if k <= |Wire(fields[..from])| + |fields[from]| {
      j, r := from, k - |Wire(fields[..from])|;
    } else {
      WireStep(fields, from);
      j, r := Place(fields, k, from + 1);
    }
  }

  /** The fields a cut leaves. */
  function CutFields(fields: seq<Bytes>, j: nat, r: nat): seq<Bytes>
    requires j <= |fields| && if j < |fields| then r <= |fields[j]| else r == 0
  {
    if r == 0 then fields[..j] else fields[..j] + [fields[j][..r]]
  }

  lemma {:induction false} SplitBehind(parts: seq<Bytes>, tail: Bytes)
    requires (forall i :: 0 <= i < |parts| ==> Free(parts[i], NUL)) && Free(tail, NUL)
    ensures SplitOn(Wire(parts) + tail, NUL) == parts + [tail]
  {
    if parts == [] {
      assert Wire(parts) + tail == tail;
      SplitFree(tail);
    } else {
      SplitBehind(parts[1..], tail);
      assert Wire(parts) + tail == parts[0] + [NUL] + (Wire(parts[1..]) + tail);
      SplitFirst(parts[0], Wire(parts[1..]) + tail, NUL);
      assert [parts[0]] + (parts[1..] + [tail]) == parts + [tail];
    }
  }

  lemma {:induction false} SplitFree(tail: Bytes)
    requires Free(tail, NUL)
    ensures SplitOn(tail, NUL) == [tail]
  {
    if tail != [] {
      SplitFree(tail[1..]);
      assert [tail[0]] + tail[1..] == tail;
    }
  }

  /** The bytes of the field a cut falls into. */
  function CutTail(fields: seq<Bytes>, j: nat, r: nat): Bytes
    requires j <= |fields| && if j < |fields| then r <= |fields[j]| else r == 0
  {
    if j < |fields| then fields[j][..r] else []
  }

  lemma TakeJoined(a: Bytes, b: Bytes, c: Bytes, r: nat)
    requires r <= |b|
    ensures (a + (b + c))[..|a| + r] == a + b[..r]
  {
  }

  lemma CutBytes(fields: seq<Bytes>, k: nat, j: nat, r: nat)
    requires At(fields, k, j, r) && k <= |Wire(fields)|
    ensures Wire(fields)[..k] == Wire(fields[..j]) + CutTail(fields, j, r)
  {
    assert fields == fields[..j] + fields[j..];
    WireJoin(fields[..j], fields[j..]);
    if j < |fields| {
      var rest := [NUL] + Wire(fields[j + 1..]);
      assert fields[j..][1..] == fields[j + 1..];
      assert Wire(fields[j..]) == fields[j] + rest;
      TakeJoined(Wire(fields[..j]), fields[j], rest, r);
    } else {
      assert fields[..j] == fields;
    }
  }

  lemma DropExact(whole: seq<Bytes>, tail: Bytes)
    ensures DropLastEmpty(whole + [tail]) == if tail == [] then whole else whole + [tail]
  {
    assert (whole + [tail])[..|whole|] == whole;
  }

  lemma CutSplits(fields: seq<Bytes>, k: nat, j: nat, r: nat)
    requires Printable(fields) && At(fields, k, j, r) && k <= |Wire(fields)|
    ensures DropLastEmpty(SplitOn(Wire(fields)[..k], NUL)) == CutFields(fields, j, r)
  {
    CutBytes(fields, k, j, r);
    SplitBehind(fields[..j], CutTail(fields, j, r));
    DropExact(fields[..j], CutTail(fields, j, r));
  }

  /** Leading changes neither help nor hurt what follows them. */
  lemma {:induction false} ParseSkip(a: seq<Change>, rest: seq<Bytes>)
    requires AllWellFormed(a)
    ensures Parse(Fields(a) + rest).Some? <==> Parse(rest).Some?
  {
    if a == [] {
      assert Fields(a) + rest == rest;
    } else {
      ParseSkip(a[1..], rest);
      ParseFirst(a[0], Fields(a[1..]) + rest);
      assert Fields(a) + rest == [a[0].status] + a[0].paths + (Fields(a[1..]) + rest);
    }
  }

  /** A change that breaks off in its `o`th field parses only if that is its last one. */
  lemma ParseBroken(e: Change, o: nat, x: Bytes)
    requires WellFormed(e) && o <= |e.paths|
    ensures Parse(([e.status] + e.paths)[..o] + [x]).Some? <==> o == |e.paths|
  {
    var rest := ([e.status] + e.paths)[..o] + [x];
    if o == 0 {
      assert rest == [x];
    } else {
      assert rest[0] == e.status && |rest| == o + 1;
      if o == |e.paths| {
        assert rest[1 + o..] == [];
      }
    }
  }

  lemma FieldsStep(es: seq<Change>, m: nat)
    requires m < |es|
    ensures Fields(es[..m + 1]) == Fields(es[..m]) + ([es[m].status] + es[m].paths)
  {
    assert es[..m + 1] == es[..m] + [es[m]];
    FieldsJoin(es[..m], [es[m]]);
    assert Fields([es[m]]) == [es[m].status] + es[m].paths + Fields([]);
  }

  lemma {:induction false} FieldsGrow(es: seq<Change>, i: nat, j: nat)
    requires i <= j <= |es|
    ensures Fields(es[..i]) <= Fields(es[..j])
  {
    if i < j {
      FieldsGrow(es, i, j - 1);
      FieldsStep(es, j - 1);
    }
  }

  /** The change a field belongs to. */
  lemma {:induction false} ChangeOf(es: seq<Change>, j: nat, from: nat) returns (m: nat)
    requires from <= |es| && |Fields(es[..from])| <= j < |Fields(es)|
    ensures m < |es| && |Fields(es[..m])| <= j < |Fields(es[..m + 1])|
    decreases |es| - from
  {
    assert es[..|es|] == es;
    assert from < |es|;
    if j < |Fields(es[..from + 1])| {
      m := from;
    } else {
      m := ChangeOf(es, j, from + 1);
    }
  }

  /** Field `j` is the last path of change `m`. */
  predicate LastPath(es: seq<Change>, m: nat, j: nat) { m < |es| && |Fields(es[..m])| + |es[m].paths| == j }

  lemma LastPathUnique(es: seq<Change>, m: nat, n: nat, j: nat)
    requires LastPath(es, n, j) && m < |es| && |Fields(es[..m])| <= j < |Fields(es[..m + 1])|
    ensures m == n
  {
    FieldsStep(es, n);
    FieldsStep(es, m);
    if m < n {
      FieldsGrow(es, m + 1, n);
    } else if n < m {
      FieldsGrow(es, n + 1, m);
    }
  }

  lemma ParsePartial(es: seq<Change>, j: nat, x: Bytes)
    requires AllWellFormed(es) && j < |Fields(es)|
    ensures Parse(Fields(es)[..j] + [x]).Some? <==> exists m :: LastPath(es, m, j)
  {
    assert es[..0] == [];
    var m := ChangeOf(es, j, 0);
    var f0 := |Fields(es[..m])|;
    FieldsStep(es, m);
    assert es[..|es|] == es;
    FieldsGrow(es, m + 1, |es|);
    var o := j - f0;
    assert Fields(es)[..j] + [x] == Fields(es[..m]) + (([es[m].status] + es[m].paths)[..o] + [x]);
    ParseSkip(es[..m], ([es[m].status] + es[m].paths)[..o] + [x]);
    ParseBroken(es[m], o, x);
    assert o == |es[m].paths| ==> LastPath(es, m, j);
    if n :| LastPath(es, n, j) {
      LastPathUnique(es, m, n, j);
    }
  }

  /** The cut falls between two changes. */
  predicate Between(es: seq<Change>, k: nat) { exists m :: 0 <= m <= |es| && k == |Wire(Fields(es[..m]))| }

  /** Where the last path of change `m` begins. */
  function LastPathStart(es: seq<Change>, m: nat): nat
    requires m < |es| && es[m].paths != []
  {
    |Wire(Fields(es[..m]) + [es[m].status] + es[m].paths[..|es[m].paths| - 1])|
  }

  lemma LastPathAt(es: seq<Change>, m: nat)
    requires AllWellFormed(es) && m < |es|
    ensures var j, c := |Fields(es[..m])| + |es[m].paths|, |es[m].paths|;
            && j < |Fields(es)| && Fields(es)[j] == es[m].paths[c - 1]
            && Fields(es)[..j] == Fields(es[..m]) + [es[m].status] + es[m].paths[..c - 1]
  {
    FieldsStep(es, m);
    assert es[..|es|] == es;
    FieldsGrow(es, m + 1, |es|);
  }

  lemma BoundaryAt(es: seq<Change>, m: nat)
    requires m <= |es|
    ensures |Fields(es[..m])| <= |Fields(es)| && Fields(es)[..|Fields(es[..m])|] == Fields(es[..m])
  {
    assert es[..|es|] == es;
    FieldsGrow(es, m, |es|);
  }

  predicate Boundary(es: seq<Change>, j: nat) { exists m :: 0 <= m <= |es| && |Fields(es[..m])| == j }

  lemma BetweenPlace(es: seq<Change>, k: nat, j: nat, r: nat)
    requires At(Fields(es), k, j, r) && Between(es, k)
    ensures r == 0 && Boundary(es, j)
  {
    var m :| 0 <= m <= |es| && k == |Wire(Fields(es[..m]))|;
    BoundaryAt(es, m);
    PlaceUnique(Fields(es), k, j, r, |Fields(es[..m])|, 0);
  }

  lemma PlaceBetween(es: seq<Change>, k: nat, j: nat)
    requires At(Fields(es), k, j, 0) && Boundary(es, j)
    ensures Between(es, k)
  {
    var m :| 0 <= m <= |es| && |Fields(es[..m])| == j;
    BoundaryAt(es, m);
  }

  /** The cut leaves a non-empty beginning of the last path of change `m`. */
  predicate InLastPathOf(es: seq<Change>, k: nat, m: nat)
    requires AllWellFormed(es)
  {
    m < |es| && LastPathStart(es, m) < k <= LastPathStart(es, m) + |es[m].paths[|es[m].paths| - 1]|
  }

  predicate InLastPath(es: seq<Change>, k: nat)
    requires AllWellFormed(es)
  {
    exists m :: 0 <= m < |es| && InLastPathOf(es, k, m)
  }

  lemma LastPathPlace(es: seq<Change>, k: nat, j: nat, r: nat, m: nat)
    requires AllWellFormed(es) && At(Fields(es), k, j, r) && InLastPathOf(es, k, m)
    ensures r > 0 && LastPath(es, m, j)
  {
    LastPathAt(es, m);
    PlaceUnique(Fields(es), k, j, r, |Fields(es[..m])| + |es[m].paths|, k - LastPathStart(es, m));
  }

  lemma PlaceLastPath(es: seq<Change>, k: nat, j: nat, r: nat, m: nat)
    requires AllWellFormed(es) && At(Fields(es), k, j, r) && r > 0 && LastPath(es, m, j)
    ensures InLastPathOf(es, k, m)
  {
    LastPathAt(es, m);
  }

  /** Which cuts are meant, in terms of fields. */
  lemma PlaceExactly(es: seq<Change>, k: nat, j: nat, r: nat)
    requires AllWellFormed(es) && At(Fields(es), k, j, r)
    ensures Between(es, k) || InLastPath(es, k) <==> if r == 0 then Boundary(es, j) else exists m :: LastPath(es, m, j)
  {
    if Between(es, k) {
      BetweenPlace(es, k, j, r);
    }
    if InLastPath(es, k) {
      var m :| 0 <= m < |es| && InLastPathOf(es, k, m);
      LastPathPlace(es, k, j, r, m);
    }
    if r == 0 && Boundary(es, j) {
      PlaceBetween(es, k, j);
    }
    if r > 0 && exists m :: LastPath(es, m, j) {
      var m :| LastPath(es, m, j);
      PlaceLastPath(es, k, j, r, m);
    }
  }

  /** The fields of what Git prints for a list of changes, cut after any number of bytes, spell changes if and only if
      the cut falls between two changes or leaves a non-empty beginning of a change's last path. */
  lemma ByteCutExactly(es: seq<Change>, k: nat)
    requires AllWellFormed(es) && Printable(Named(es)) && k <= |Wire(Fields(es))|
    ensures Parse(DropLastEmpty(SplitOn(Wire(Fields(es))[..k], NUL))).Some? <==> Between(es, k) || InLastPath(es, k)
  {
    FieldsPrintable(es);
    var fields := Fields(es);
    assert fields[..0] == [];
    var j, r := Place(fields, k, 0);
    CutSplits(fields, k, j, r);
    PlaceExactly(es, k, j, r);
    if r == 0 {
      TruncationRejected(es, j);
    } else {
      ParsePartial(es, j, fields[j][..r]);
    }
  }

  // ------------------------------------------------------------- what a cut listing yields

  predicate BetweenAt(es: seq<Change>, k: nat, m: nat) { m <= |es| && k == |Wire(Fields(es[..m]))| }

  /** Change `m` as a cut inside its last path leaves it. */
  function Shortened(es: seq<Change>, k: nat, m: nat): Change
    requires AllWellFormed(es) && InLastPathOf(es, k, m)
  {
    var paths := es[m].paths;
    es[m].(paths := paths[..|paths| - 1] + [paths[|paths| - 1][..k - LastPathStart(es, m)]])
  }

  /** The changes a cut leaves: those before it, and the one it shortens. */
  ghost predicate Leaves(es: seq<Change>, k: nat, left: seq<Change>)
    requires AllWellFormed(es)
  {
    || (exists m :: 0 <= m <= |es| && BetweenAt(es, k, m) && left == es[..m])
    || (exists m :: 0 <= m < |es| && InLastPathOf(es, k, m) && left == es[..m] + [Shortened(es, k, m)])
  }

  lemma ShortFields(es: seq<Change>, k: nat, m: nat)
    requires AllWellFormed(es) && InLastPathOf(es, k, m)
    ensures var j, r := |Fields(es[..m])| + |es[m].paths|, k - LastPathStart(es, m);
            && At(Fields(es), k, j, r) && r > 0
            && CutFields(Fields(es), j, r) == Fields(es[..m] + [Shortened(es, k, m)])
  {
    LastPathAt(es, m);
    var short := Shortened(es, k, m);
    FieldsJoin(es[..m], [short]);
    assert Fields([short]) == [short.status] + short.paths + Fields([]);
    var paths, part := es[m].paths, short.paths[|short.paths| - 1];
    assert short.paths == paths[..|paths| - 1] + [part];
    assert Fields(es[..m]) + ([short.status] + short.paths) == Fields(es[..m]) + [es[m].status] + paths[..|paths| - 1] + [part];
  }

  lemma BetweenFields(es: seq<Change>, k: nat, m: nat)
    requires BetweenAt(es, k, m)
    ensures At(Fields(es), k, |Fields(es[..m])|, 0) && CutFields(Fields(es), |Fields(es[..m])|, 0) == Fields(es[..m])
  {
    BoundaryAt(es, m);
  }

  lemma CutParses(fields: seq<Bytes>, k: nat, j: nat, r: nat, left: seq<Change>)
    requires Printable(fields) && k <= |Wire(fields)| && At(fields, k, j, r)
    requires AllWellFormed(left) && CutFields(fields, j, r) == Fields(left)
    ensures Parse(DropLastEmpty(SplitOn(Wire(fields)[..k], NUL))) == Some(left)
  {
    CutSplits(fields, k, j, r);
    ParseExact(left);
  }

  lemma BetweenParses(es: seq<Change>, k: nat, m: nat)
    requires AllWellFormed(es) && Printable(Fields(es)) && k <= |Wire(Fields(es))| && BetweenAt(es, k, m)
    ensures Parse(DropLastEmpty(SplitOn(Wire(Fields(es))[..k], NUL))) == Some(es[..m])
  {
    BetweenFields(es, k, m);
    CutParses(Fields(es), k, |Fields(es[..m])|, 0, es[..m]);
  }

  lemma ShortWellFormed(es: seq<Change>, k: nat, m: nat)
    requires AllWellFormed(es) && InLastPathOf(es, k, m)
    ensures AllWellFormed(es[..m] + [Shortened(es, k, m)])
  {
    assert WellFormed(es[m]);
  }

  lemma ShortPlace(es: seq<Change>, k: nat, m: nat) returns (j: nat, r: nat, left: seq<Change>)
    requires AllWellFormed(es) && InLastPathOf(es, k, m)
    ensures At(Fields(es), k, j, r) && CutFields(Fields(es), j, r) == Fields(left)
    ensures AllWellFormed(left) && left == es[..m] + [Shortened(es, k, m)]
  {
    ShortFields(es, k, m);
    ShortWellFormed(es, k, m);
    j, r, left := |Fields(es[..m])| + |es[m].paths|, k - LastPathStart(es, m), es[..m] + [Shortened(es, k, m)];
  }

  lemma ShortParses(es: seq<Change>, k: nat, m: nat)
    requires AllWellFormed(es) && Printable(Fields(es)) && k <= |Wire(Fields(es))| && InLastPathOf(es, k, m)
    ensures Parse(DropLastEmpty(SplitOn(Wire(Fields(es))[..k], NUL))) == Some(es[..m] + [Shortened(es, k, m)])
  {
    var j, r, left := ShortPlace(es, k, m);
    CutParses(Fields(es), k, j, r, left);
  }

  /** The listing parses to exactly the changes the cut leaves. */
  lemma LeftParses(es: seq<Change>, k: nat, left: seq<Change>)
    requires AllWellFormed(es) && Printable(Named(es)) && k <= |Wire(Fields(es))| && Leaves(es, k, left)
    ensures Parse(DropLastEmpty(SplitOn(Wire(Fields(es))[..k], NUL))) == Some(left)
  {
    FieldsPrintable(es);
    if m :| 0 <= m <= |es| && BetweenAt(es, k, m) && left == es[..m] {
      BetweenParses(es, k, m);
    } else {
      var m :| 0 <= m < |es| && InLastPathOf(es, k, m) && left == es[..m] + [Shortened(es, k, m)];
      ShortParses(es, k, m);
    }
  }

  lemma LeavesExactly(es: seq<Change>, k: nat)
    requires AllWellFormed(es)
    ensures (exists left :: Leaves(es, k, left)) <==> Between(es, k) || InLastPath(es, k)
  {
    if Between(es, k) {
      var m :| 0 <= m <= |es| && k == |Wire(Fields(es[..m]))|;
      assert BetweenAt(es, k, m);
      assert Leaves(es, k, es[..m]);
    }
    if InLastPath(es, k) {
      var m :| 0 <= m < |es| && InLastPathOf(es, k, m);
      assert Leaves(es, k, es[..m] + [Shortened(es, k, m)]);
    }
  }

  function Sorted(names: Option<seq<string>>): Option<seq<string>> { if names.None? then None else Some(SortedSet(names.value)) }

  lemma CollectedFrom(utf8: Decoder, tracked: Bytes, left: seq<Change>, others: seq<Bytes>)
    requires Printable(others) && Parse(DropLastEmpty(SplitOn(tracked, NUL))) == Some(left)
    ensures Collected(utf8, tracked, Wire(others)) == Sorted(DecodeAll(utf8, Named(left) + others))
  {
    SplitTerminated(others, NUL);
    NonEmptyAll(others);
    DecodeJoin(utf8, Named(left), others);
  }

  /** Truncation, exactly: a listing cut after any number of bytes is accepted if and only if the cut falls between two
      changes or leaves a non-empty beginning of a change's last path, and every path it leaves, the shortened one
      included, is UTF-8; and then exactly those paths are collected. */
  lemma CutCollectsExactly(utf8: Decoder, es: seq<Change>, others: seq<Bytes>, k: nat)
    requires AllWellFormed(es) && Printable(Named(es)) && Printable(others) && k <= |Wire(Fields(es))|
    ensures var got := Collected(utf8, Wire(Fields(es))[..k], Wire(others));
            && (got.Some? <==> exists left :: Leaves(es, k, left) && DecodeAll(utf8, Named(left) + others).Some?)
            && (forall left :: Leaves(es, k, left) ==> got == Sorted(DecodeAll(utf8, Named(left) + others)))
  {
    forall left | Leaves(es, k, left)
      ensures Collected(utf8, Wire(Fields(es))[..k], Wire(others)) == Sorted(DecodeAll(utf8, Named(left) + others))
    {
      LeftParses(es, k, left);
      CollectedFrom(utf8, Wire(Fields(es))[..k], left, others);
    }
    ByteCutExactly(es, k);
    LeavesExactly(es, k);
  }

  const ACCENT: seq<Change> := [Change([77], [[195, 169]])]

  /** "M NUL é NUL", and where its path begins. */
  lemma AccentWire()
    ensures AllWellFormed(ACCENT) && Printable(Named(ACCENT))
    ensures Wire(Fields(ACCENT)) == [77, 0, 195, 169, 0] && LastPathStart(ACCENT, 0) == 2
  {
    var m: Bytes, e: Bytes := [77], [195, 169];
    assert "ACDMRTUXB"[3] as int == 77;
    assert ACCENT[1..] == [] && Fields(ACCENT) == [m, e] && Named(ACCENT) == [e];
    assert [m, e][1..] == [e] && [e][1..] == [] && [m][1..] == [];
    assert Wire([e]) == e + [NUL] + Wire([]) && Wire([m, e]) == m + [NUL] + Wire([e]) && Wire([m]) == m + [NUL] + Wire([]);
    assert ACCENT[..0] == [] && Fields(ACCENT[..0]) + [m] + ACCENT[0].paths[..0] == [m];
  }

  /** A cut inside a character is noticed: the listing breaks off after the first byte of é. */
  lemma CutInsideCharacter(utf8: Decoder)
    requires utf8([195]).None?
    ensures AllWellFormed(ACCENT) && InLastPath(ACCENT, 3)
    ensures |Wire(Fields(ACCENT))| == 5 && Collected(utf8, Wire(Fields(ACCENT))[..3], []).None?
  {
    AccentWire();
    assert InLastPathOf(ACCENT, 3, 0);
    var short := Shortened(ACCENT, 3, 0);
    assert ACCENT[0].paths[..0] == [] && [195, 169][..1] == [195];
    assert short.paths == [[195]];
    var left := ACCENT[..0] + [short];
    assert left == [short] && left[1..] == [] && Named(left) + [] == [[195]];
    assert Leaves(ACCENT, 3, left);
    CutCollectsExactly(utf8, ACCENT, [], 3);
    assert Wire([]) == [];
  }
}
