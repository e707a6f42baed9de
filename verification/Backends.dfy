/** Backend rows and the trust lattice (go/internal/backends/backend.go, go/internal/backends/trust.go). */
module Backends {

  /** The fields of a pool row that routing reads. */
  datatype Backend = Backend(
    id: string,
    name: string,
    scope: string,
    providerClass: string,
    trust: string,
    locality: string,
    roles: seq<string>,
    modelMap: map<string, string>,
    model: string,
    priority: int,
    enabled: bool)
  {
    predicate HasRole(role: string)
    {
      role in roles
    }

    /** The role's own model, else the default entry, else the model of a row without a map. */
    function ModelFor(role: string): string
    {
      if role in modelMap then modelMap[role]
      else if "default" in modelMap then modelMap["default"]
      else model
    }
  }

  const GLOBAL_SCOPE: string := "_global"
  const LOCALITY_LOCAL: string := "local"
  const LOCALITY_LAN: string := "lan"
  const LOCALITY_EXTERNAL: string := "external"
  const PROVIDER_CTX: string := "ctx"

  // ---------------------------------------------------------------- trust and sensitivity

  /** An empty or unknown sensitivity ranks as credentials. */
  function SensRank(s: string): nat
  {
    if s == "public" then 0 else if s == "internal" then 1 else if s == "personal" then 2 else 3
  }

  /** An unknown trust admits nothing. */
  function MaxRank(t: string): int
  {
    if t == "full-trust" then 3 else if t == "no-credentials" then 2 else if t == "non-personal" then 1
    else if t == "public" then 0 else -1
  }

  predicate Allows(t: string, s: string)
  {
    SensRank(s) <= MaxRank(t)
  }

  /** The sensitivity of a whole prompt: the highest of its parts, credentials if there are none. */
  method MaxSensitivity(parts: seq<string>) returns (s: string)
    ensures parts == [] ==> s == "credentials"
    ensures forall i :: 0 <= i < |parts| ==> SensRank(parts[i]) <= SensRank(s)
    ensures parts != [] ==> exists i :: 0 <= i < |parts| && SensRank(parts[i]) == SensRank(s)
    ensures s in {"public", "internal", "personal", "credentials"}
  {
    var max: int := -1;
    for i := 0 to |parts|
      invariant -1 <= max <= 3
      invariant i == 0 ==> max == -1
      invariant forall j :: 0 <= j < i ==> SensRank(parts[j]) <= max
      invariant i > 0 ==> exists j :: 0 <= j < i && SensRank(parts[j]) == max
    {
      if SensRank(parts[i]) > max {
        max := SensRank(parts[i]);
      }
    }
    s := if max == 0 then "public" else if max == 1 then "internal" else if max == 2 then "personal" else "credentials";
  }

  /** A trust admits the whole prompt exactly when it admits every part. */
  lemma AllowsAllParts(t: string, parts: seq<string>, s: string)
    requires parts != []
    requires forall i :: 0 <= i < |parts| ==> SensRank(parts[i]) <= SensRank(s)
    requires exists i :: 0 <= i < |parts| && SensRank(parts[i]) == SensRank(s)
    ensures Allows(t, s) <==> forall i :: 0 <= i < |parts| ==> Allows(t, parts[i])
  {
  }

  /**
   Which sensitivities each trust admits; an unknown sensitivity counts as credentials, an unknown trust
   admits nothing.
   */
  lemma TrustTable(t: string, s: string)
    ensures Allows(t, s) <==>
            || t == "full-trust"
            || (t == "no-credentials" && (s == "public" || s == "internal" || s == "personal"))
            || (t == "non-personal" && (s == "public" || s == "internal"))
            || (t == "public" && s == "public")
  {
  }

  /** The role's own entry wins over the default entry, and the row's model counts only without both. */
  lemma ModelOfRole(b: Backend, role: string)
    ensures role in b.modelMap ==> b.ModelFor(role) == b.modelMap[role]
    ensures role !in b.modelMap && "default" in b.modelMap ==> b.ModelFor(role) == b.modelMap["default"]
    ensures role !in b.modelMap && "default" !in b.modelMap ==> b.ModelFor(role) == b.model
  {
  }
}
