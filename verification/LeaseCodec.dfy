/** A codec that meets the law the lease protocol asks for: self-delimiting text, field after field. */
module LeaseCodec {
  import opened Options
  import opened LeaseProtocol
  import opened LeaseStore

  /** A number, as so many twos and a three. */
  function Tally(n: nat): Bytes { if n == 0 then [3] else [2] + Tally(n - 1) }

  /** A string: each character announced by a one, the end by a zero. */
  function Text(s: string): Bytes { if s == "" then [0] else [1] + Tally(s[0] as int) + Text(s[1..]) }

  function Encoded(l: Lease): Bytes {
    Text(l.leaseId) + (Text(l.taskId) + (Text(l.workspaceId) + (Text(l.executorId) + (Text(l.operation) + Text(l.execution)))))
  }

  lemma {:induction false} TallyCancels(m: nat, n: nat, x: Bytes, y: Bytes)
    requires Tally(m) + x == Tally(n) + y
    ensures m == n && x == y
  {
    var a, b := Tally(m) + x, Tally(n) + y;
    assert a[0] == b[0];
    if m == 0 {
      assert a[1..] == x && b[1..] == y;
    } else {
      assert a[1..] == Tally(m - 1) + x && b[1..] == Tally(n - 1) + y;
      TallyCancels(m - 1, n - 1, x, y);
    }
  }

  /** What follows a text does not change how it reads. */
  lemma {:induction false} TextCancels(s: string, t: string, x: Bytes, y: Bytes)
    requires Text(s) + x == Text(t) + y
    ensures s == t && x == y
  {
    var a, b := Text(s) + x, Text(t) + y;
    assert a[0] == b[0];
    if s == "" {
      assert a[1..] == x && b[1..] == y;
    } else {
      assert a[1..] == Tally(s[0] as int) + (Text(s[1..]) + x) && b[1..] == Tally(t[0] as int) + (Text(t[1..]) + y);
      TallyCancels(s[0] as int, t[0] as int, Text(s[1..]) + x, Text(t[1..]) + y);
      TextCancels(s[1..], t[1..], x, y);
      assert s == [s[0]] + s[1..] && t == [t[0]] + t[1..];
    }
  }

  lemma Peel(s: string, t: string, a: Bytes, b: Bytes, x: Bytes, y: Bytes)
    requires Text(s) + a + x == Text(t) + b + y
    ensures s == t && a + x == b + y
  {
    assert Text(s) + a + x == Text(s) + (a + x) && Text(t) + b + y == Text(t) + (b + y);
    TextCancels(s, t, a + x, b + y);
  }

  /** No encoding is the beginning of another. */
  lemma EncodedCancels(l: Lease, k: Lease, x: Bytes, y: Bytes)
    requires Encoded(l) + x == Encoded(k) + y
    ensures l == k && x == y
  {
    var l5, k5 := Text(l.execution), Text(k.execution);
    var l4, k4 := Text(l.operation) + l5, Text(k.operation) + k5;
    var l3, k3 := Text(l.executorId) + l4, Text(k.executorId) + k4;
    var l2, k2 := Text(l.workspaceId) + l3, Text(k.workspaceId) + k3;
    var l1, k1 := Text(l.taskId) + l2, Text(k.taskId) + k2;
    Peel(l.leaseId, k.leaseId, l1, k1, x, y);
    Peel(l.taskId, k.taskId, l2, k2, x, y);
    Peel(l.workspaceId, k.workspaceId, l3, k3, x, y);
    Peel(l.executorId, k.executorId, l4, k4, x, y);
    Peel(l.operation, k.operation, l5, k5, x, y);
    TextCancels(l.execution, k.execution, x, y);
  }

  ghost function Decoded(b: Bytes): Option<Lease> {
    if l :| Encoded(l) == b then Some(l) else None
  }

  ghost function Sample(task: string, workspace: string): Codec { Codec(Encoded, Decoded, task, workspace) }

  lemma DecodedExact(l: Lease, n: nat)
    requires n <= |Encoded(l)|
    ensures Decoded(Encoded(l)[..n]) == if n == |Encoded(l)| then Some(l) else None
  {
    var b := Encoded(l)[..n];
    assert Encoded(l) == b + Encoded(l)[n..];
    forall k | Encoded(k) == b ensures k == l && n == |Encoded(l)| {
      assert Encoded(k) + Encoded(l)[n..] == Encoded(l) + [];
      EncodedCancels(k, l, Encoded(l)[n..], []);
    }
    if n == |Encoded(l)| {
      assert b == Encoded(l);
    }
  }

  /** The law of the lease protocol can be met, for every task and workspace. */
  lemma SampleIsLawful(task: string, workspace: string)
    ensures Lawful(Sample(task, workspace))
  {
    var c := Sample(task, workspace);
    forall l ensures c.dec(c.enc(l)) == Some(l) {
      DecodedExact(l, |Encoded(l)|);
      assert Encoded(l)[..|Encoded(l)|] == Encoded(l);
    }
    forall l, n | 0 <= n < |c.enc(l)| ensures c.dec(Head(c, l, n)).None? {
      DecodedExact(l, n);
    }
    forall l ensures Encoded(l) != [] {
      assert Text(l.leaseId) != [];
    }
  }

  lemma {:induction false} TallyLength(n: nat)
    ensures |Tally(n)| == n + 1
  {
    if n > 0 {
      TallyLength(n - 1);
    }
  }

  lemma ShortLeases(executor: string)
    requires executor == "" || executor == "a"
    ensures Owned(Sample("", ""), Lease("", "", "", executor, "", ""))
  {
    TallyLength('a' as int);
    assert "a"[1..] == "";
    assert |Text(executor)| <= 200;
  }

  /** And under a lawful codec a lease that was acquired can be lost: the condition of `KeptExactly` is not idle. */
  lemma LossIsReal()
    ensures exists c, steps, k :: && Lawful(c) && Run(c, FRESH, steps).Some? && 0 <= k < |Run(c, FRESH, steps).value.notes|
                                  && var s := Run(c, FRESH, steps).value; s.notes[k].Acquired? && s.file.None? && !Archived(c, s, s.notes[k].l)
  {
    var c, a, b := Sample("", ""), Lease("", "", "", "", "", ""), Lease("", "", "", "a", "", "");
    SampleIsLawful("", "");
    ShortLeases("");
    ShortLeases("a");
    SharedIdLosesHistory(c, a, b, 0);
    var steps := AcquireSteps(c, a) + ReleaseSteps(a, 0) + AcquireSteps(c, b) + ReleaseSteps(b, 0);
    var s := Run(c, FRESH, steps).value;
    var k :| 0 <= k < |s.notes| && s.notes[k] == Acquired(0, a);
    assert s.notes[k].l == a;
  }
}
