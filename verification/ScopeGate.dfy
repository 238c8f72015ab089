/** The scope gate: after an executor has run, every path it touched must be one its task allows,
    and no task can allow Git's or the bridge's own files. */
module ScopeGate {
  import opened Options
  import opened SortedStrings
  import opened Text
  import opened NameStatus

  predicate IsControl(c: char) { c <= '\U{1f}' || c == '\U{7f}' }

  /** `_validate_repo_path`. */
  predicate ValidRepoPath(p: string) {
    && p != "" && Strip(p) == p && '\\' !in p
    && (forall i :: 0 <= i < |p| ==> !IsControl(p[i]))
    && (forall part :: part in SplitOn(p, '/') ==> part != "" && part != "." && part != "..")
  }

  /** The path is the namespace or lies under it. */
  predicate Under(p: string, namespace: string) { p == namespace || StartsWith(p, namespace + "/") }

  const FORBIDDEN_NAMESPACES := [".ai/results", ".ai/auth", ".ai/inbox", ".ai/state", ".ai/bridge"]

  /** `_validate_allowed_path`. */
  predicate ValidAllowedPath(p: string) {
    && ValidRepoPath(p) && !Under(p, ".git")
    && forall namespace :: namespace in FORBIDDEN_NAMESPACES ==> !Under(p, namespace)
  }

  predicate InNamespace(p: string, namespace: string) { p == namespace || namespace + "/" <= p }

  /** A task may be allowed any legal path outside Git's files and the bridge's own five directories. */
  lemma AllowedExactly(p: string)
    ensures ValidAllowedPath(p) <==>
            && ValidRepoPath(p) && !InNamespace(p, ".git") && !InNamespace(p, ".ai/results") && !InNamespace(p, ".ai/auth")
            && !InNamespace(p, ".ai/inbox") && !InNamespace(p, ".ai/state") && !InNamespace(p, ".ai/bridge")
  {
    var all := FORBIDDEN_NAMESPACES;
    assert all[0] == ".ai/results" && all[1] == ".ai/auth" && all[2] == ".ai/inbox" && all[3] == ".ai/state" && all[4] == ".ai/bridge";
    forall namespace ensures Under(p, namespace) <==> InNamespace(p, namespace) {
    }
    forall k | 0 <= k < 5 ensures all[k] in FORBIDDEN_NAMESPACES {
    }
  }

  /** What stands between the slashes of a path: never empty, so the path neither begins nor ends with a slash nor
      doubles one, and never a step to itself or upwards. */
  predicate Step(part: string) { part != "" && part != "." && part != ".." && '/' !in part }

  function Joined(parts: seq<string>): string
    requires parts != []
  {
    if |parts| == 1 then parts[0] else parts[0] + "/" + Joined(parts[1..])
  }

  lemma {:induction false} JoinedTerminates(parts: seq<string>)
    requires parts != []
    ensures Joined(parts) + "/" == Terminated(parts, '/')
  {
    if |parts| > 1 {
      JoinedTerminates(parts[1..]);
      assert parts[0] + "/" + Joined(parts[1..]) + "/" == parts[0] + "/" + (Joined(parts[1..]) + "/");
    } else {
      assert Terminated(parts[1..], '/') == [];
    }
  }

  lemma {:induction false} SplitJoin(parts: seq<string>)
    requires parts != [] && forall i :: 0 <= i < |parts| ==> Free(parts[i], '/')
    ensures SplitOn(Joined(parts), '/') == parts
  {
    var p := Joined(parts);
    SplitInverts(p, '/');
    JoinedTerminates(parts);
    SplitTerminated(SplitOn(p, '/'), '/');
    SplitTerminated(parts, '/');
    var all := SplitOn(p, '/');
    assert (all + [""])[..|all|] == all && (parts + [""])[..|parts|] == parts;
  }

  predicate AllSteps(parts: seq<string>) { parts != [] && forall i :: 0 <= i < |parts| ==> Step(parts[i]) }

  lemma StepsExactly(p: string)
    ensures (exists parts :: AllSteps(parts) && p == Joined(parts)) <==> AllSteps(SplitOn(p, '/'))
  {
    var all := SplitOn(p, '/');
    SplitInverts(p, '/');
    JoinedTerminates(all);
    assert p == (Joined(all) + "/")[..|p|] == Joined(all);
    if parts :| AllSteps(parts) && p == Joined(parts) {
      SplitJoin(parts);
    }
  }

  lemma PartsExactly(p: string)
    ensures AllSteps(SplitOn(p, '/')) <==> forall part :: part in SplitOn(p, '/') ==> part != "" && part != "." && part != ".."
  {
    var all := SplitOn(p, '/');
    assert forall i :: 0 <= i < |all| ==> all[i] in all && Free(all[i], '/');
  }

  lemma CharsExactly(p: string)
    ensures ('\\' !in p && forall i :: 0 <= i < |p| ==> !IsControl(p[i])) <==>
            forall i :: 0 <= i < |p| ==> p[i] != '\\' && p[i] as int > 31 && p[i] as int != 127
  {
    assert forall i :: 0 <= i < |p| ==> (IsControl(p[i]) <==> p[i] as int <= 31 || p[i] as int == 127);
    if '\\' in p {
      var i :| 0 <= i < |p| && p[i] == '\\';
    }
  }

  /** A legal path is one or more steps joined by slashes, without white space at either end, back slashes or control
      characters. */
  lemma RepoPathExactly(p: string)
    ensures ValidRepoPath(p) <==>
            && p != "" && (exists parts :: AllSteps(parts) && p == Joined(parts)) && !IsSpace(p[0]) && !IsSpace(p[|p| - 1])
            && forall i :: 0 <= i < |p| ==> p[i] != '\\' && p[i] as int > 31 && p[i] as int != 127
  {
    StepsExactly(p);
    PartsExactly(p);
    CharsExactly(p);
    if p != "" {
      StripEnds(p);
    }
  }

  lemma StripEnds(p: string)
    requires p != ""
    ensures Strip(p) == p <==> !IsSpace(p[0]) && !IsSpace(p[|p| - 1])
  {
    if !IsSpace(p[0]) && !IsSpace(p[|p| - 1]) {
      StripFixed(p);
    } else {
      var i, j := StripExactly(p);
    }
  }

  predicate IsSha(s: string) { |s| == 40 && forall i :: 0 <= i < |s| ==> '0' <= s[i] <= '9' || 'a' <= s[i] <= 'f' }

  lemma ShaExactly(s: string)
    ensures IsSha(s) <==> |s| == 40 && forall i :: 0 <= i < 40 ==> s[i] in "0123456789abcdef"
  {
    forall c: char ensures '0' <= c <= '9' || 'a' <= c <= 'f' <==> c in "0123456789abcdef" {
      HexExactly(c);
    }
  }

  lemma HexExactly(c: char)
    ensures '0' <= c <= '9' || 'a' <= c <= 'f' <==> c in "0123456789abcdef"
  {
    var hex := "0123456789abcdef";
    if '0' <= c <= '9' {
      assert hex[c as int - '0' as int] == c;
    } else if 'a' <= c <= 'f' {
      assert hex[c as int - 'a' as int + 10] == c;
    }
  }

  datatype Delta = Delta(preBranch: string, postBranch: string, preHead: string, postHead: string)

  predicate Unmoved(d: Delta) { d.preBranch != "" && d.preBranch == d.postBranch && IsSha(d.preHead) && d.preHead == d.postHead }

  /** `validate_executor_worktree_delta`; None is a raised error. */
  function Gate(d: Delta, dirty: seq<string>, allowed: seq<string>): Option<seq<string>> {
    if !Unmoved(d) then None
    else if (exists p :: p in allowed && !ValidAllowedPath(p)) || |Elements(allowed)| != |allowed| then None
    else if (exists p :: p in dirty && !ValidRepoPath(p)) || |Elements(dirty)| != |dirty| then None
    else if dirty == [] || !(Elements(dirty) <= Elements(allowed)) then None
    else Some(SortedSet(dirty))
  }

  lemma {:induction false} AscendingDistinct(xs: seq<string>)
    requires Ascending(xs)
    ensures |Elements(xs)| == |xs|
  {
    if xs != [] {
      AscendingDistinct(xs[1..]);
      TailElements(xs);
      assert xs[0] in Elements(xs);
    }
  }

  /** The paths of a working tree, as Git lists them. */
  predicate Listing(es: seq<Change>, others: seq<Bytes>) { AllWellFormed(es) && Printable(Named(es)) && Printable(others) }

  function Dirty(utf8: Decoder, es: seq<Change>, others: seq<Bytes>): Option<seq<string>> {
    Collected(utf8, Terminated(Fields(es), NUL), Terminated(others, NUL))
  }

  /** On what the collector returns, the gate accepts exactly when branch and HEAD are unmoved, the allowed paths
      are legal and unique, something changed, and everything that changed is a legal path and allowed. */
  lemma GateExact(utf8: Decoder, es: seq<Change>, others: seq<Bytes>, d: Delta, allowed: seq<string>)
    requires Listing(es, others) && Dirty(utf8, es, others).Some?
    ensures var dirty := Dirty(utf8, es, others).value;
            && (Gate(d, dirty, allowed).Some? <==>
                  && d.preBranch != "" && d.postBranch == d.preBranch && d.postHead == d.preHead
                  && |d.preHead| == 40 && (forall i :: 0 <= i < 40 ==> d.preHead[i] in "0123456789abcdef")
                  && |Elements(allowed)| == |allowed| && dirty != []
                  && (forall p :: p in allowed ==> ValidAllowedPath(p))
                  && (forall p :: p in dirty ==> ValidRepoPath(p) && p in allowed))
            && (Gate(d, dirty, allowed).Some? ==> Gate(d, dirty, allowed).value == dirty)
  {
    CollectsEveryPath(utf8, es, others);
    ShaExactly(d.preHead);
    var dirty := Dirty(utf8, es, others).value;
    AscendingDistinct(dirty);
    AscendingUnique(SortedSet(dirty), dirty);
    assert Elements(dirty) <= Elements(allowed) <==> forall p :: p in dirty ==> p in allowed by {
      forall p | p in dirty && Elements(dirty) <= Elements(allowed) ensures p in allowed {
        assert p in Elements(dirty);
      }
    }
  }

  /** End to end: when the gate accepts, every path Git named, on either side of a rename or copy or untracked, is
      allowed and lies outside .git and the control namespaces. */
  lemma GateCoversEveryPath(utf8: Decoder, es: seq<Change>, others: seq<Bytes>, d: Delta, allowed: seq<string>, raw: Bytes)
    requires Listing(es, others) && Dirty(utf8, es, others).Some?
    requires Gate(d, Dirty(utf8, es, others).value, allowed).Some? && raw in Named(es) + others
    ensures utf8(raw).Some? && utf8(raw).value in allowed && ValidRepoPath(utf8(raw).value)
    ensures forall namespace :: namespace in {".git", ".ai/results", ".ai/auth", ".ai/inbox", ".ai/state", ".ai/bridge"} ==>
              utf8(raw).value != namespace && !(namespace + "/" <= utf8(raw).value)
  {
    CollectsEveryPath(utf8, es, others);
    GateExact(utf8, es, others, d, allowed);
    var all := Named(es) + others;
    var i :| 0 <= i < |all| && all[i] == raw;
    DecodesEach(utf8, all);
    var want := DecodeAll(utf8, all).value;
    assert want[i] in Elements(want);
    AllowedExactly(want[i]);
  }
}
