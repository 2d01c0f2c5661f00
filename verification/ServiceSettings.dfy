/** The settings a service passes on to its container: environment, restart policy and
    labels. */
module ServiceSettings {
  import opened Wrappers
  import opened Strings

  // ----- environment -----

  /** One KEY=VALUE entry; a bare KEY has an empty value, and an empty key is skipped. */
  function EntryOf(e: string): Option<(string, string)> {
    var cut := Cut(e, '=');
    var k := TrimSpace(if cut.Some? then cut.value.0 else e);
    if k == "" then None else Some((k, if cut.Some? then cut.value.1 else ""))
  }

  function EnvOf(env: seq<string>): map<string, string> {
    if |env| == 0 then map[]
    else
      var front, last := EnvOf(env[..|env| - 1]), EntryOf(env[|env| - 1]);
      if last.Some? then front[last.value.0 := last.value.1] else front
  }

  method EnvMap(env: seq<string>) returns (out: map<string, string>)
    ensures out == EnvOf(env)
  {
    out := map[];
    for i := 0 to |env|
      invariant out == EnvOf(env[..i])
    {
      assert env[..i + 1][..i] == env[..i];
      var entry := EntryOf(env[i]);
      if entry.None? {
        continue;
      }
      out := out[entry.value.0 := entry.value.1];
    }
    assert env[..|env|] == env;
  }

  predicate Sets(e: string, k: string) {
    var entry := EntryOf(e);
    entry.Some? && entry.value.0 == k
  }

  /** Entry i sets k to v and no later entry sets k. */
  predicate SetsLast(env: seq<string>, i: nat, k: string, v: string) {
    i < |env| && EntryOf(env[i]) == Some((k, v)) &&
    forall j :: i < j < |env| ==> !Sets(env[j], k)
  }

  lemma SetsLastEarlier(env: seq<string>, i: nat, k: string, v: string)
    requires i < |env| - 1
    ensures SetsLast(env, i, k, v) <==> SetsLast(env[..|env| - 1], i, k, v) && !Sets(env[|env| - 1], k)
  {
    var front := env[..|env| - 1];
    assert forall j :: 0 <= j < |front| ==> front[j] == env[j];
    if SetsLast(env, i, k, v) {
      assert i < |env| - 1 < |env|;
    }
  }

  ghost predicate SetTo(env: seq<string>, k: string, v: string) {
    exists i: nat :: SetsLast(env, i, k, v)
  }

  lemma SetByLast(env: seq<string>, k: string, v: string)
    requires |env| > 0 && Sets(env[|env| - 1], k)
    ensures SetTo(env, k, v) <==> EntryOf(env[|env| - 1]) == Some((k, v))
  {
    var n := |env| - 1;
    forall i: nat | SetsLast(env, i, k, v)
      ensures i == n
    {
      assert i < |env|;
    }
    if EntryOf(env[n]) == Some((k, v)) {
      assert SetsLast(env, n, k, v);
    }
  }

  lemma SetBefore(env: seq<string>, k: string, v: string)
    requires |env| > 0 && !Sets(env[|env| - 1], k)
    ensures SetTo(env, k, v) <==> SetTo(env[..|env| - 1], k, v)
  {
    var front := env[..|env| - 1];
    if i: nat :| SetsLast(env, i, k, v) {
      SetsLastEarlier(env, i, k, v);
    }
    if i: nat :| SetsLast(front, i, k, v) {
      SetsLastEarlier(env, i, k, v);
    }
  }

  lemma EnvByLast(env: seq<string>, k: string)
    requires |env| > 0
    ensures Sets(env[|env| - 1], k) ==> k in EnvOf(env) && EnvOf(env)[k] == EntryOf(env[|env| - 1]).value.1
    ensures !Sets(env[|env| - 1], k) ==> (k in EnvOf(env) <==> k in EnvOf(env[..|env| - 1]))
    ensures !Sets(env[|env| - 1], k) && k in EnvOf(env) ==> EnvOf(env)[k] == EnvOf(env[..|env| - 1])[k]
  {}

  /** A variable has the value that its last entry gives it. */
  lemma {:induction false} LastEntryWins(env: seq<string>, k: string, v: string)
    ensures k in EnvOf(env) && EnvOf(env)[k] == v <==> SetTo(env, k, v)
  {
    if |env| > 0 {
      EnvByLast(env, k);
      if Sets(env[|env| - 1], k) {
        SetByLast(env, k, v);
      } else {
        LastEntryWins(env[..|env| - 1], k, v);
        SetBefore(env, k, v);
      }
    }
  }

  // ----- restart policy and labels -----

  const RESTART_POLICIES := {"always", "on-failure", "unless-stopped", "no"}

  /** normalizeRestart: the four known policies in any case, anything else is left to the
      daemon. */
  function RestartPolicy(v: string): (r: string)
    ensures r in RESTART_POLICIES + {""}
    ensures r != "" ==> r == ToLower(TrimSpace(v))
    ensures ToLower(TrimSpace(v)) in RESTART_POLICIES ==> r == ToLower(TrimSpace(v))
  {
    var s := ToLower(TrimSpace(v));
    if s in RESTART_POLICIES then s else ""
  }

  function LabelsFor(project: string, service: string): map<string, string> {
    map[
      "com.docker.compose.project" := project,
      "com.docker.compose.service" := service,
      "com.docker.compose.container-number" := "1",
      "io.castor.stack" := project,
      "io.castor.managed" := "true"
    ]
  }
}
