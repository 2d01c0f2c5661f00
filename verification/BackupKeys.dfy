/** Where a backup's artifacts live: vm/<vm id>/<unix second>/<name>. */
module BackupKeys {
  import opened Wrappers
  import opened Strings

  const DISK_NAME := "disk-0.qcow2"
  const MANIFEST_NAME := "manifest.json"

  /** Where a backup lives below vm/. */
  function Folder(vmID: string, at: int): string {
    vmID + (['/'] + (Itoa(at) + ['/']))
  }

  function Prefix(vmID: string, at: int): string {
    "vm/" + Folder(vmID, at)
  }

  /** The text behind the last slash decides both halves. */
  lemma CutIsUnique(a: string, x: string, b: string, y: string)
    requires '/' !in x && '/' !in y
    requires a + (['/'] + x) == b + (['/'] + y)
    ensures a == b && x == y
  {
    var s, t := a + (['/'] + x), b + (['/'] + y);
    assert s[|a|] == '/' && t[|b|] == '/';
    assert forall i :: |a| < i < |s| ==> s[i] == x[i - |a| - 1] && s[i] in x;
    assert forall i :: |b| < i < |t| ==> t[i] == y[i - |b| - 1] && t[i] in y;
    assert |a| == |b|;
    assert s[..|a|] == a && t[..|b|] == b;
    assert s[|a| + 1..] == x && t[|b| + 1..] == y;
  }

  lemma {:induction false} NoSlashInNumbers(n: nat)
    ensures '/' !in NatText(n)
  {
    if n >= 10 {
      NoSlashInNumbers(n / 10);
    }
  }

  lemma NoSlashInTimes(n: int)
    ensures '/' !in Itoa(n)
  {
    NoSlashInNumbers(if n < 0 then -n else n);
  }

  lemma BelowVm(x: string, y: string)
    ensures "vm/" + x <= "vm/" + y <==> x <= y
  {
    var p, q := "vm/" + x, "vm/" + y;
    assert p[3..] == x && q[3..] == y;
    if p <= q {
      assert q[..|p|] == p;
      assert y[..|x|] == q[..|p|][3..];
    }
    if x <= y {
      assert q[..|p|] == "vm/" + y[..|x|];
    }
  }

  lemma Regroup(a: string, b: string, c: string, d: string)
    ensures a + (b + (c + d)) == (a + b) + (c + d) == (a + (b + c)) + d
  {}

  /** A folder is its VM's part and the time's part. */
  lemma FolderParts(vmID: string, at: int)
    ensures Folder(vmID, at) == (vmID + ['/']) + (Itoa(at) + ['/'])
    ensures Folder(vmID, at) == (vmID + (['/'] + Itoa(at))) + ['/']
  {
    Regroup(vmID, ['/'], Itoa(at), ['/']);
  }

  lemma FolderInjective(v: string, at: int, w: string, other: int)
    requires Folder(v, at) == Folder(w, other)
    ensures v == w && at == other
  {
    var x, y := v + (['/'] + Itoa(at)), w + (['/'] + Itoa(other));
    FolderParts(v, at);
    FolderParts(w, other);
    assert (x + ['/'])[..|x|] == x && (y + ['/'])[..|y|] == y;
    NoSlashInTimes(at);
    NoSlashInTimes(other);
    CutIsUnique(v, Itoa(at), w, Itoa(other));
    ItoaInjective(at, other);
  }

  lemma EndsWithin(p: string, a: string, t: string)
    requires |a| < |p| <= |a| + |t| && p <= a + (t + ['/'])
    ensures p[|p| - 1] in t
  {
    assert p[|p| - 1] == (a + (t + ['/']))[|p| - 1] == t[|p| - 1 - |a|];
  }

  /** A text that ends in a slash and begins a followed by a slash-free t and one more
      slash is the whole of that, or lies within a. */
  lemma EndsAtSlash(p: string, a: string, t: string)
    requires |p| > 0 && p[|p| - 1] == '/' && '/' !in t && p <= a + (t + ['/'])
    ensures p == a + (t + ['/']) || p <= a
  {
    var q := a + (t + ['/']);
    if |p| <= |a| {
      assert p == q[..|p|] == a[..|p|];
    } else if |p| <= |a| + |t| {
      EndsWithin(p, a, t);
    }
  }

  /** When one backup's prefix covers another backup: only when the VM's id and the time,
      as path elements, begin the other VM's id. */
  lemma CoversExactly(v: string, at: int, w: string, other: int)
    ensures Prefix(v, at) <= Prefix(w, other) <==> (v == w && at == other) || Folder(v, at) <= w + ['/']
  {
    var p, q, t := Folder(v, at), Folder(w, other), Itoa(other);
    BelowVm(p, q);
    FolderParts(v, at);
    FolderParts(w, other);
    if p <= q {
      NoSlashInTimes(other);
      EndsAtSlash(p, w + ['/'], t);
      if p == q {
        FolderInjective(v, at, w, other);
      }
    }
    if p <= w + ['/'] {
      assert p <= (w + ['/']) + (t + ['/']);
    }
  }

  lemma Comparable(p: string, q: string, key: string)
    requires p <= key && q <= key
    ensures p <= q || q <= p
  {
    assert p == key[..|p|] && q == key[..|q|];
  }

  lemma CoverNeedsSlash(v: string, at: int, w: string)
    requires Folder(v, at) <= w + ['/']
    ensures '/' in w
  {
    assert w[|v|] == Folder(v, at)[|v|];
  }

  /** VM ids without a slash are safe: no prefix covers another backup. */
  lemma OnlyOwnCovered(v: string, at: int, w: string, other: int)
    requires '/' !in w
    ensures Prefix(v, at) <= Prefix(w, other) <==> v == w && at == other
  {
    CoversExactly(v, at, w, other);
    if Folder(v, at) <= w + ['/'] {
      CoverNeedsSlash(v, at, w);
    }
  }

  /** Then no key lies under the prefixes of two different backups. */
  lemma OneOwner(vmID: string, at: int, other: string, otherAt: int, key: string)
    requires '/' !in vmID && '/' !in other
    requires Prefix(vmID, at) <= key && Prefix(other, otherAt) <= key
    ensures vmID == other && at == otherAt
  {
    Comparable(Prefix(vmID, at), Prefix(other, otherAt), key);
    OnlyOwnCovered(vmID, at, other, otherAt);
    OnlyOwnCovered(other, otherAt, vmID, at);
  }

  /** With slashes it does happen, to every VM: its backup of a second covers all backups
      of the VM whose id goes on with a slash and that second. */
  lemma SlashesCollide(v: string, at: int, other: int)
    ensures Prefix(v, at) <= Prefix(v + (['/'] + Itoa(at)), other)
  {
    FolderParts(v, at);
    CoversExactly(v, at, v + (['/'] + Itoa(at)), other);
  }

  lemma EndsInName(p: string, prefix: string, name: string)
    requires |prefix| < |p| && p <= prefix + name
    ensures p[|p| - 1] in name
  {
    assert p[|p| - 1] == (prefix + name)[|p| - 1];
  }

  /** A name without a slash lies under no longer prefix than its own. */
  lemma PrefixEndsBefore(vmID: string, at: int, prefix: string, name: string)
    requires '/' !in name && Prefix(vmID, at) <= prefix + name
    ensures Prefix(vmID, at) <= prefix
  {
    var p := Prefix(vmID, at);
    FolderParts(vmID, at);
    if |prefix| < |p| {
      EndsInName(p, prefix, name);
    } else {
      assert p == (prefix + name)[..|p|] == prefix[..|p|];
    }
  }

  lemma UnderPrefix(prefix: string, name: string)
    ensures prefix <= prefix + name
  {}
}
