/** Completing the container environment with the required variables
    (EnvVars.Sanitize in api/v1alpha1/keda_types.go). */
module EnvVars {
  import opened KedaTypes

  const REQUIRED := [
    EnvVar("WATCH_NAMESPACE", "", None),
    EnvVar("POD_NAME", "", Some("metadata.name")),
    EnvVar("POD_NAMESPACE", "", Some("metadata.namespace")),
    EnvVar("OPERATOR_NAME", "keda-operator", None),
    EnvVar("KEDA_HTTP_DEFAULT_TIMEOUT", "3000", None),
    EnvVar("KEDA_HTTP_MIN_TLS_VERSION", "TLS12", None)]

  predicate HasName(envs: seq<EnvVar>, name: string) {
    exists i :: 0 <= i < |envs| && envs[i].name == name
  }

  function MissingFrom(envs: seq<EnvVar>, required: seq<EnvVar>): seq<EnvVar> {
    if required == [] then []
    else (if HasName(envs, required[0].name) then [] else [required[0]]) + MissingFrom(envs, required[1..])
  }

  function Completed(envs: seq<EnvVar>, required: seq<EnvVar>): seq<EnvVar> {
    envs + MissingFrom(envs, required)
  }

  function Sanitized(envs: seq<EnvVar>): seq<EnvVar> { Completed(envs, REQUIRED) }

  method Contains(envs: seq<EnvVar>, e: EnvVar) returns (found: bool)
    ensures found == HasName(envs, e.name)
  {
    for i := 0 to |envs|
      invariant forall k :: 0 <= k < i ==> envs[k].name != e.name
    {
      if envs[i].name == e.name {
        return true;
      }
    }
    found := false;
  }

  method Complete(envs: seq<EnvVar>, zero: seq<EnvVar>) returns (r: seq<EnvVar>)
    ensures r == Completed(envs, zero)
  {
    var required: seq<EnvVar> := [];
    for i := 0 to |zero|
      invariant MissingFrom(envs, zero) == required + MissingFrom(envs, zero[i..])
    {
      assert zero[i..][1..] == zero[i+1..];
      var found := Contains(envs, zero[i]);
      if !found {
        required := required + [zero[i]];
      }
    }
    r := envs + required;
  }

  ghost predicate DistinctNames(envs: seq<EnvVar>) {
    forall i, j :: 0 <= i < j < |envs| ==> envs[i].name != envs[j].name
  }

  lemma {:induction false} MissingMeaning(envs: seq<EnvVar>, required: seq<EnvVar>)
    ensures forall e :: e in MissingFrom(envs, required) <==> e in required && !HasName(envs, e.name)
    ensures DistinctNames(required) ==> DistinctNames(MissingFrom(envs, required))
    ensures (forall e :: e in required ==> HasName(envs, e.name)) ==> MissingFrom(envs, required) == []
  {
    hide HasName;
    if required != [] {
      var m := MissingFrom(envs, required[1..]);
      MissingMeaning(envs, required[1..]);
      if DistinctNames(required) {
        assert forall j :: 0 <= j < |m| ==> m[j] in required[1..];
      }
    }
  }

  /** The user's entries stay first and unchanged, every required name is present, a required
      entry is added only under a name the user did not give, no name becomes duplicated,
      and completing twice is completing once. */
  lemma CompletedMeaning(envs: seq<EnvVar>, required: seq<EnvVar>)
    requires DistinctNames(required)
    ensures var r := Completed(envs, required);
      && r[..|envs|] == envs
      && (forall e :: e in required ==> HasName(r, e.name))
      && (forall e :: e in r[|envs|..] <==> e in required && !HasName(envs, e.name))
      && (DistinctNames(envs) ==> DistinctNames(r))
      && Completed(r, required) == r
  {
    var m := MissingFrom(envs, required);
    var r := envs + m;
    MissingMeaning(envs, required);
    assert r[|envs|..] == m;
    forall e | e in required ensures HasName(r, e.name) {
      if HasName(envs, e.name) {
        var i :| 0 <= i < |envs| && envs[i].name == e.name;
        assert r[i].name == e.name;
      } else {
        assert e in m;
        var i :| 0 <= i < |m| && m[i] == e;
        assert r[|envs| + i].name == e.name;
      }
    }
    if DistinctNames(envs) {
      forall i, j | 0 <= i < |envs| <= j < |r| ensures r[i].name != r[j].name {
        assert m[j - |envs|] in m;
        assert envs[i] == r[i];
      }
      forall i, j | |envs| <= i < j < |r| ensures r[i].name != r[j].name {
        assert m[i - |envs|].name != m[j - |envs|].name;
      }
    }
    MissingMeaning(r, required);
  }

  lemma RequiredDistinct()
    ensures DistinctNames(REQUIRED)
  {
    assert "WATCH_NAMESPACE"[0] == 'W' && "POD_NAME"[0] == 'P' && "OPERATOR_NAME"[0] == 'O';
    assert |"POD_NAME"| == 8 && |"POD_NAMESPACE"| == 13;
    assert "KEDA_HTTP_DEFAULT_TIMEOUT"[10] == 'D' && "KEDA_HTTP_MIN_TLS_VERSION"[10] == 'M';
  }

  lemma SanitizedMeaning(envs: seq<EnvVar>)
    ensures Sanitized(envs)[..|envs|] == envs
    ensures forall e :: e in REQUIRED ==> HasName(Sanitized(envs), e.name)
    ensures forall e :: e in Sanitized(envs)[|envs|..] <==> e in REQUIRED && !HasName(envs, e.name)
    ensures DistinctNames(envs) ==> DistinctNames(Sanitized(envs))
    ensures Sanitized(Sanitized(envs)) == Sanitized(envs)
  {
    RequiredDistinct();
    CompletedMeaning(envs, REQUIRED);
  }
}
