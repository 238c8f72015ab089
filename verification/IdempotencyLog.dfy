/** The read-only validator of the JSONL idempotency store: one pass over an interleaved log
    that decides whether each key's own lifecycle is legal. */
module IdempotencyLog {
  import opened Options

  datatype Status = New | InProgress | Completed | Failed | Recoverable

  datatype Record = Record(key: string, status: Status, owner: string, attempt: int, createdAt: real, updatedAt: real)

  /** A line is blank, does not parse, or holds a well-typed record. */
  datatype Line = Blank | Malformed | Entry(record: Record)

  predicate Terminal(s: Status) { s.Completed? || s.Failed? }

  /** The legal successor of a record of the same key. */
  predicate Follows(prev: Record, r: Record) {
    && r.updatedAt >= prev.updatedAt && r.createdAt == prev.createdAt && !Terminal(prev.status)
    && if prev.status.InProgress? && !r.status.InProgress? then
         !r.status.New? && r.owner == prev.owner && r.attempt == prev.attempt
       else r.status.InProgress? && r.attempt == prev.attempt + 1
  }

  /** One key's records, in the order of the log. */
  function Project(lines: seq<Line>, key: string): seq<Record> {
    if lines == [] then []
    else
      var last := lines[|lines| - 1];
      Project(lines[..|lines| - 1], key) + (if last.Entry? && last.record.key == key then [last.record] else [])
  }

  predicate Timely(r: Record) { r.updatedAt >= r.createdAt }

  /** A legal lifecycle. */
  predicate Chain(rs: seq<Record>) {
    rs == [] ||
    var n := |rs| - 1;
    Chain(rs[..n]) && Timely(rs[n]) && (n > 0 ==> Follows(rs[n - 1], rs[n]))
  }

  predicate NoMalformed(lines: seq<Line>) { forall i :: 0 <= i < |lines| ==> !lines[i].Malformed? }

  predicate KeyLegal(lines: seq<Line>, key: string) { Chain(Project(lines, key)) }

  /** What the validator accepts, key by key. */
  ghost predicate Legal(lines: seq<Line>) {
    NoMalformed(lines) && forall key :: KeyLegal(lines, key)
  }

  /** The records it returns are the latest of each key. */
  ghost predicate Latest(lines: seq<Line>, records: map<string, Record>) {
    && (forall key :: key in records <==> Project(lines, key) != [])
    && (forall key :: key in records ==> var rs := Project(lines, key); rs != [] && records[key] == rs[|rs| - 1])
  }

  lemma ProjectAppend(lines: seq<Line>, line: Line, key: string)
    ensures Project(lines + [line], key) == Project(lines, key) + (if line.Entry? && line.record.key == key then [line.record] else [])
  {
    assert (lines + [line])[..|lines|] == lines;
  }

  lemma ChainAppend(rs: seq<Record>, r: Record)
    ensures Chain(rs + [r]) <==> Chain(rs) && Timely(r) && (rs != [] ==> Follows(rs[|rs| - 1], r))
  {
    assert (rs + [r])[..|rs|] == rs;
  }

  lemma BlankKeeps(lines: seq<Line>, records: map<string, Record>)
    requires Legal(lines) && Latest(lines, records)
    ensures Legal(lines + [Blank]) && Latest(lines + [Blank], records)
  {
    forall key ensures Project(lines + [Blank], key) == Project(lines, key) && KeyLegal(lines + [Blank], key) {
      ProjectAppend(lines, Blank, key);
      assert KeyLegal(lines, key);
    }
  }

  lemma RecordKeeps(lines: seq<Line>, records: map<string, Record>, r: Record)
    requires Legal(lines) && Latest(lines, records)
    ensures Legal(lines + [Entry(r)]) <==> Timely(r) && (r.key in records ==> Follows(records[r.key], r))
  {
    var longer, rs := lines + [Entry(r)], Project(lines, r.key);
    ProjectAppend(lines, Entry(r), r.key);
    ChainAppend(rs, r);
    assert KeyLegal(lines, r.key);
    assert KeyLegal(longer, r.key) <==> Timely(r) && (r.key in records ==> Follows(records[r.key], r));
    forall other | other != r.key ensures KeyLegal(longer, other) {
      ProjectAppend(lines, Entry(r), other);
      assert Project(longer, other) == Project(lines, other);
      assert KeyLegal(lines, other);
    }
  }

  lemma RecordLatest(lines: seq<Line>, records: map<string, Record>, r: Record)
    requires Latest(lines, records)
    ensures Latest(lines + [Entry(r)], records[r.key := r])
  {
    forall key ensures Project(lines + [Entry(r)], key) == Project(lines, key) + (if key == r.key then [r] else []) {
      ProjectAppend(lines, Entry(r), key);
    }
  }

  lemma {:induction false} ProjectPrefix(lines: seq<Line>, n: nat, key: string)
    requires n <= |lines|
    ensures Project(lines[..n], key) <= Project(lines, key)
  {
    if n == |lines| {
      assert lines[..n] == lines;
    } else {
      ProjectPrefix(lines[..|lines| - 1], n, key);
      assert lines[..|lines| - 1][..n] == lines[..n];
    }
  }

  lemma {:induction false} ChainPrefix(a: seq<Record>, b: seq<Record>)
    requires a <= b && Chain(b)
    ensures Chain(a)
  {
    if |a| < |b| {
      ChainPrefix(a, b[..|b| - 1]);
    } else {
      assert a == b;
    }
  }

  /** Accepted logs are prefix-closed. */
  lemma LegalPrefix(lines: seq<Line>, n: nat)
    requires Legal(lines) && n <= |lines|
    ensures Legal(lines[..n])
  {
    forall key ensures KeyLegal(lines[..n], key) {
      ProjectPrefix(lines, n, key);
      assert KeyLegal(lines, key);
      ChainPrefix(Project(lines[..n], key), Project(lines, key));
    }
  }

  /** The transition checks of the loop body, one after the other. */
  method CheckTransition(prev: Record, r: Record) returns (ok: bool)
    ensures ok == Follows(prev, r)
  {
    if r.updatedAt < prev.updatedAt || r.createdAt != prev.createdAt {
      return false;
    }
    match prev.status {
      case Completed => return false;
      case Failed => return false;
      case InProgress =>
        match r.status {
          case New => return false;
          case InProgress => return r.attempt == prev.attempt + 1;
          case _ => return r.owner == prev.owner && r.attempt == prev.attempt;
        }
      case Recoverable => return r.status.InProgress? && r.attempt == prev.attempt + 1;
      case New => return r.status.InProgress? && r.attempt == prev.attempt + 1;
    }
  }

  /** `parse_idempotency_store_read_only`: one dictionary, line by line. */
  method Validate(lines: seq<Line>) returns (r: Option<map<string, Record>>)
    ensures r.Some? <==> Legal(lines)
    ensures r.Some? ==> Latest(lines, r.value)
  {
    var records: map<string, Record> := map[];
    for i := 0 to |lines|
      invariant Legal(lines[..i]) && Latest(lines[..i], records)
    {
      var done := lines[..i];
      assert lines[..i + 1] == done + [lines[i]];
      if Legal(lines) {
        LegalPrefix(lines, i + 1);
      }
      match lines[i] {
        case Blank => BlankKeeps(done, records);
        case Malformed => return None;
        case Entry(record) =>
          RecordKeeps(done, records, record);
          RecordLatest(done, records, record);
          if record.updatedAt < record.createdAt {
            return None;
          }
          if record.key in records {
            var ok := CheckTransition(records[record.key], record);
            if !ok {
              return None;
            }
          }
          records := records[record.key := record];
      }
    }
    assert lines[..|lines|] == lines;
    return Some(records);
  }

  // ---------------------------------------------------------------- per key and over time

  function Entries(rs: seq<Record>): seq<Line> {
    if rs == [] then [] else Entries(rs[..|rs| - 1]) + [Entry(rs[|rs| - 1])]
  }

  lemma {:induction false} ProjectEntries(rs: seq<Record>, key: string, other: string)
    requires forall i :: 0 <= i < |rs| ==> rs[i].key == key
    ensures Project(Entries(rs), other) == (if other == key then rs else []) && NoMalformed(Entries(rs))
  {
    if rs != [] {
      var n := |rs| - 1;
      ProjectEntries(rs[..n], key, other);
      ProjectAppend(Entries(rs[..n]), Entry(rs[n]), other);
      assert rs == rs[..n] + [rs[n]];
    }
  }

  lemma {:induction false} ProjectKeyed(lines: seq<Line>, key: string)
    ensures forall i :: 0 <= i < |Project(lines, key)| ==> Project(lines, key)[i].key == key
  {
    if lines != [] {
      ProjectKeyed(lines[..|lines| - 1], key);
    }
  }

  /** One key's records, taken alone as a log. */
  function Alone(lines: seq<Line>, key: string): seq<Line> { Entries(Project(lines, key)) }

  lemma LegalAlone(lines: seq<Line>, key: string)
    ensures Legal(Alone(lines, key)) <==> KeyLegal(lines, key)
  {
    var rs := Project(lines, key);
    ProjectKeyed(lines, key);
    ProjectEntries(rs, key, key);
    assert KeyLegal(Alone(lines, key), key) <==> KeyLegal(lines, key);
    forall other | other != key ensures KeyLegal(Alone(lines, key), other) {
      ProjectEntries(rs, key, other);
    }
  }

  /** Validation is per key: an interleaved log is accepted exactly when every line parses and each key's own
      records, taken alone as a log, are accepted. */
  lemma LegalPerKey(lines: seq<Line>)
    ensures Legal(lines) <==> NoMalformed(lines) && forall key :: Legal(Alone(lines, key))
  {
    forall key ensures Legal(Alone(lines, key)) <==> KeyLegal(lines, key) {
      LegalAlone(lines, key);
    }
  }

  // ------------------------------------------------------------------- line by line

  /** What may stand next to each other under one key: a claim is finished, by its own owner in its own attempt, or taken
      over in the next attempt; a new or recoverable key is claimed in the next attempt; a finished one is left alone. */
  predicate Succeeds(a: Record, b: Record) {
    && a.createdAt == b.createdAt && a.updatedAt <= b.updatedAt
    && match a.status
       case InProgress =>
         || (b.status == InProgress && b.attempt == a.attempt + 1)
         || (b.status in {Completed, Failed, Recoverable} && b.owner == a.owner && b.attempt == a.attempt)
       case New => b.status == InProgress && b.attempt == a.attempt + 1
       case Recoverable => b.status == InProgress && b.attempt == a.attempt + 1
       case Completed => false
       case Failed => false
  }

  predicate Enters(line: Line, key: string) { line.Entry? && line.record.key == key }

  /** Lines `i` and `k` are consecutive records of this key. */
  predicate Neighbours(lines: seq<Line>, key: string, i: int, k: int) {
    0 <= i < k < |lines| && Enters(lines[i], key) && Enters(lines[k], key) && forall m :: i < m < k ==> !Enters(lines[m], key)
  }

  ghost predicate KeySucceeds(lines: seq<Line>, key: string) {
    && (forall i :: 0 <= i < |lines| && Enters(lines[i], key) ==> lines[i].record.createdAt <= lines[i].record.updatedAt)
    && forall i, k :: Neighbours(lines, key, i, k) ==> Succeeds(lines[i].record, lines[k].record)
  }

  lemma {:induction false} LastEntered(lines: seq<Line>, key: string) returns (i: int)
    ensures if Project(lines, key) == [] then forall m :: 0 <= m < |lines| ==> !Enters(lines[m], key)
            else 0 <= i < |lines| && Enters(lines[i], key) && (forall m :: i < m < |lines| ==> !Enters(lines[m], key))
                 && Project(lines, key)[|Project(lines, key)| - 1] == lines[i].record
  {
    i := |lines| - 1;
    if lines != [] && !Enters(lines[i], key) {
      var n := i;
      i := LastEntered(lines[..n], key);
      assert forall m :: 0 <= m < n ==> lines[..n][m] == lines[m];
    }
  }

  lemma KeyAppend(lines: seq<Line>, e: Line, key: string, last: int)
    requires if forall m :: 0 <= m < |lines| ==> !Enters(lines[m], key) then last < 0
             else 0 <= last < |lines| && Enters(lines[last], key) && forall m :: last < m < |lines| ==> !Enters(lines[m], key)
    ensures KeySucceeds(lines + [e], key) <==>
            KeySucceeds(lines, key) && (Enters(e, key) ==> e.record.createdAt <= e.record.updatedAt && (last >= 0 ==> Succeeds(lines[last].record, e.record)))
  {
    var all, n := lines + [e], |lines|;
    assert all[n] == e && forall m :: 0 <= m < n ==> all[m] == lines[m];
    forall i, k | 0 <= i < k < n ensures Neighbours(all, key, i, k) <==> Neighbours(lines, key, i, k) {
    }
    if last >= 0 && Enters(e, key) {
      assert Neighbours(all, key, last, n);
      forall i | Neighbours(all, key, i, n) ensures i == last {
      }
    }
    if KeySucceeds(all, key) {
      forall i | 0 <= i < n && Enters(lines[i], key) ensures lines[i].record.createdAt <= lines[i].record.updatedAt {
        assert Enters(all[i], key);
      }
    }
  }

  lemma {:induction false} KeyExactly(lines: seq<Line>, key: string)
    ensures KeyLegal(lines, key) <==> KeySucceeds(lines, key)
  {
    if lines != [] {
      var n := |lines| - 1;
      var init, e := lines[..n], lines[n];
      assert lines == init + [e];
      KeyExactly(init, key);
      var last := LastEntered(init, key);
      if Project(init, key) == [] {
        last := -1;
      }
      KeyAppend(init, e, key, last);
      ProjectAppend(init, e, key);
      if Enters(e, key) {
        ChainAppend(Project(init, key), e.record);
        if last >= 0 {
          FollowsExactly(init[last].record, e.record);
        }
      } else {
        assert Project(lines, key) == Project(init, key);
      }
    }
  }

  lemma FollowsExactly(a: Record, b: Record)
    ensures Follows(a, b) <==> Succeeds(a, b)
  {
  }

  /** An interleaved log is accepted exactly when every line parses, no record was updated before it was created, and of
      any two consecutive records of one key the second may follow the first. */
  lemma LegalExactly(lines: seq<Line>)
    ensures Legal(lines) <==>
            && (forall i :: 0 <= i < |lines| ==> !lines[i].Malformed?)
            && (forall i :: 0 <= i < |lines| && lines[i].Entry? ==> lines[i].record.createdAt <= lines[i].record.updatedAt)
            && (forall key, i, k :: Neighbours(lines, key, i, k) ==> Succeeds(lines[i].record, lines[k].record))
  {
    forall key ensures KeyLegal(lines, key) <==> KeySucceeds(lines, key) {
      KeyExactly(lines, key);
    }
    if Legal(lines) {
      forall i | 0 <= i < |lines| && lines[i].Entry? ensures lines[i].record.createdAt <= lines[i].record.updatedAt {
        assert KeyLegal(lines, lines[i].record.key) && Enters(lines[i], lines[i].record.key);
      }
      forall key, i, k | Neighbours(lines, key, i, k) ensures Succeeds(lines[i].record, lines[k].record) {
        assert KeyLegal(lines, key);
      }
    }
  }

  /** How often a key was claimed again after its first record. */
  function Claims(rs: seq<Record>): nat {
    if |rs| <= 1 then 0 else Claims(rs[..|rs| - 1]) + (if rs[|rs| - 1].status.InProgress? then 1 else 0)
  }

  /** Within a legal key: the attempt is the first one plus the later claims, the creation time never changes,
      the update time never falls, and nothing follows COMPLETED or FAILED. */
  lemma {:induction false} Lifecycle(rs: seq<Record>)
    requires Chain(rs) && rs != []
    ensures var last := rs[|rs| - 1];
            last.attempt == rs[0].attempt + Claims(rs) && last.createdAt == rs[0].createdAt
    ensures forall i :: 0 <= i < |rs| - 1 ==> rs[i].updatedAt <= rs[|rs| - 1].updatedAt && !Terminal(rs[i].status)
  {
    if |rs| > 1 {
      var n := |rs| - 1;
      Lifecycle(rs[..n]);
      assert forall i :: 0 <= i < n ==> rs[..n][i] == rs[i];
    }
  }

  /** The same, at every record of every key of an accepted log. */
  lemma LegalLifecycle(lines: seq<Line>, key: string, i: nat)
    requires Legal(lines) && i < |Project(lines, key)|
    ensures var rs := Project(lines, key);
            && rs[i].attempt == rs[0].attempt + Claims(rs[..i + 1]) && rs[i].createdAt == rs[0].createdAt
            && forall k :: 0 <= k < i ==> rs[k].updatedAt <= rs[i].updatedAt && !Terminal(rs[k].status)
  {
    var rs := Project(lines, key);
    assert KeyLegal(lines, key);
    var begun := rs[..i + 1];
    ChainPrefix(begun, rs);
    Lifecycle(begun);
    assert begun[0] == rs[0] && begun[|begun| - 1] == rs[i] && forall k :: 0 <= k < i ==> begun[k] == rs[k];
  }
}
