/** The values the gateway stores: vCenter records, UUID mappings and settings. */
module Records {
  import opened Text

  datatype Option<+T> = None | Some(value: T)

  datatype Result<+T, +E> = Ok(value: T) | Err(error: E)

  datatype Origin = NoOrigin | GitOps | Runtime

  datatype PasswordSource = NoSource | FromSecret | Manual

  datatype SecretRef = SecretRef(name: string, passwordKey: string, usernameKey: string)

  datatype VCenter = VCenter(
    id: string,
    name: string,
    url: string,
    username: string,
    password: string,
    insecure: bool,
    datacenter: string,
    datastore: string,
    folder: string,
    isoFolder: string,
    notes: string,
    dryRun: bool,
    configMap: string,
    configOrigin: Origin,
    credentialsSecret: Option<SecretRef>,
    passwordSource: PasswordSource,
    hasPassword: bool)

  datatype Mapping = Mapping(uuid: string, vcenterId: string, name: string, notes: string)

  datatype Settings = Settings(dryRun: bool)

  const DEFAULT_ISO_FOLDER := "rf2vc/isos"

  const DATASTORE_PLACEHOLDERS: set<string> :=
    {"", "none", "notset", "not set", "n/a", "na", "-", "null", "undefined"}

  function NormalizeUuid(u: string): string {
    Lower(Trim(u))
  }

  function NormalizeDatastore(s: string): string {
    if Lower(Trim(s)) in DATASTORE_PLACEHOLDERS then "" else Trim(s)
  }

  /** The record shown outside the store: never the password, only whether there is one. */
  function Redact(vc: VCenter): VCenter {
    vc.(hasPassword := vc.password != "", password := "", datastore := NormalizeDatastore(vc.datastore))
  }

  lemma NormalizeUuidTwice(u: string)
    ensures NormalizeUuid(NormalizeUuid(u)) == NormalizeUuid(u)
  {
    LowerKeepsTrimmed(Trim(u));
    LowerTwice(Trim(u));
  }

  lemma NormalizeDatastoreTwice(s: string)
    ensures NormalizeDatastore(NormalizeDatastore(s)) == NormalizeDatastore(s)
  {
  }

  /** Two spellings of a UUID are one UUID exactly when they agree up to case and surrounding space. */
  lemma SameUuidIff(b1: string, m1: string, a1: string, b2: string, m2: string, a2: string)
    requires AllSpace(b1) && AllSpace(a1) && AllSpace(b2) && AllSpace(a2) && Trimmed(m1) && Trimmed(m2)
    ensures NormalizeUuid(b1 + m1 + a1) == NormalizeUuid(b2 + m2 + a2) <==> SameLetters(m1, m2)
  {
    TrimIs(b1, m1, a1);
    TrimIs(b2, m2, a2);
    LowerIff(m1, m2);
  }

  lemma PlaceholdersAreLower(w: string)
    requires w in DATASTORE_PLACEHOLDERS
    ensures Lower(w) == w
  {
  }

  /** The words that stand for no datastore, in any case and with space around; any other name is
      kept as it is but for the space. */
  lemma DatastoreIs(before: string, name: string, after: string)
    requires AllSpace(before) && AllSpace(after) && Trimmed(name)
    ensures var none := ["", "none", "notset", "not set", "n/a", "na", "-", "null", "undefined"];
            NormalizeDatastore(before + name + after) ==
            if exists i :: 0 <= i < |none| && SameLetters(none[i], name) then "" else name
  {
    TrimIs(before, name, after);
    var none := ["", "none", "notset", "not set", "n/a", "na", "-", "null", "undefined"];
    forall i | 0 <= i < |none| ensures SameLetters(none[i], name) <==> Lower(name) == none[i] {
      LowerIff(none[i], name);
      PlaceholdersAreLower(none[i]);
    }
    hide SameLetters;
    assert forall w :: w in DATASTORE_PLACEHOLDERS <==> w in none;
    assert Lower(name) in none <==> exists i :: 0 <= i < |none| && none[i] == Lower(name);
  }

  /** What the world sees of a record: everything but the password. */
  lemma RedactedIs(vc: VCenter)
    ensures var r := Redact(vc);
            && r.password == "" && (r.hasPassword <==> vc.password != "")
            && r.datastore == NormalizeDatastore(vc.datastore)
            && r.(password := vc.password, hasPassword := vc.hasPassword, datastore := vc.datastore) == vc
  {
  }
}
