/** ConfigMaps that define vCenters: what is read from them, what is written to them, and
    the steps of one Startup. */
module VcsyncSpec {
  import opened Text
  import opened Records
  import opened StoreSpec
  import opened Slugs

  const LABEL_VCENTER := "rf2vc.dasmlab.org/vcenter"
  const LABEL_ORIGIN := "rf2vc.dasmlab.org/origin"
  const NAME_PREFIX := "rf2vc-vc-"
  const DEFAULT_PASS_KEY := "password"

  /** The vcenter.yaml document. */
  datatype Spec = Spec(
    id: string,
    name: string,
    url: string,
    username: string,
    insecure: bool,
    datacenter: string,
    datastore: string,
    folder: string,
    isoFolder: string,
    notes: string,
    dryRun: Option<bool>,
    credentialsSecret: Option<SecretRef>)

  /** The value under the data key: absent, not parsing (with what was decoded of the id), or a document. */
  datatype Payload = NoKey | Garbled(partialId: string) | Yaml(spec: Spec)

  datatype ConfigMap = ConfigMap(name: string, labels: map<string, string>, payload: Payload, rv: nat)

  type Cluster = map<string, ConfigMap>

  type Secrets = map<string, map<string, string>>

  predicate HasLabel(cm: ConfigMap, key: string, value: string) {
    key in cm.labels && cm.labels[key] == value
  }

  predicate IsRuntime(cm: ConfigMap) {
    HasLabel(cm, LABEL_ORIGIN, "runtime")
  }

  predicate IsListed(cm: ConfigMap) {
    HasLabel(cm, LABEL_VCENTER, "true")
  }

  function SpecId(cm: ConfigMap): string {
    match cm.payload
    case NoKey => ""
    case Garbled(partialId) => partialId
    case Yaml(spec) => spec.id
  }

  // ---------------------------------------------------------------- reading

  function FieldsOf(cm: ConfigMap): VCenter
    requires cm.payload.Yaml?
  {
    var s := cm.payload.spec;
    VCenter(s.id, s.name, s.url, s.username, "", s.insecure, s.datacenter, s.datastore, s.folder, s.isoFolder, s.notes,
            false, cm.name, if IsRuntime(cm) then Runtime else GitOps, s.credentialsSecret, NoSource, false)
  }

  function Lookup(data: map<string, string>, key: string): string {
    if key in data then data[key] else ""
  }

  function PassKey(ref: SecretRef): string {
    if ref.passwordKey == "" then DEFAULT_PASS_KEY else ref.passwordKey
  }

  /** The password and the record after the referenced Secret has been looked at. */
  function Credentials(secrets: Secrets, cfg: VCenter): (string, VCenter) {
    if cfg.credentialsSecret.None? || cfg.credentialsSecret.value.name == "" then ("", cfg) else
    var ref := cfg.credentialsSecret.value;
    if ref.name !in secrets then ("", cfg) else
    var data := secrets[ref.name];
    var user := if ref.usernameKey == "" then "" else Trim(Lookup(data, ref.usernameKey));
    (Lookup(data, PassKey(ref)), if user == "" then cfg else cfg.(username := user))
  }

  predicate Loadable(cm: ConfigMap) {
    cm.payload.Yaml? && cm.payload.spec.url != "" && cm.payload.spec.datacenter != ""
  }

  function ApplyOp(cm: ConfigMap, secrets: Secrets, newId: string): Op
    requires cm.payload.Yaml?
  {
    var (password, cfg) := Credentials(secrets, FieldsOf(cm));
    ApplyConfig(cfg, cm.payload.spec.dryRun, password, newId)
  }

  // ---------------------------------------------------------------- writing

  function BaseName(vc: VCenter): string {
    NAME_PREFIX + Slug(vc.name, vc.id)
  }

  function LongName(vc: VCenter): string {
    BaseName(vc) + "-" + if |vc.id| < 6 then vc.id else vc.id[..6]
  }

  /** A ConfigMap rf2vc may take over for the vCenter: its own earlier export. */
  predicate OwnExport(cm: ConfigMap, id: string) {
    SpecId(cm) == id && IsRuntime(cm)
  }

  predicate NameUsable(c: Cluster, name: string, id: string) {
    name !in c || OwnExport(c[name], id)
  }

  /** freeName on a cluster that does not change meanwhile. */
  function FreeName(c: Cluster, vc: VCenter): Option<string> {
    if NameUsable(c, BaseName(vc), vc.id) then Some(BaseName(vc))
    else if NameUsable(c, LongName(vc), vc.id) then Some(LongName(vc))
    else None
  }

  /** The name export writes to, if it writes. */
  function ExportName(c: Cluster, vc: VCenter): Option<string> {
    if vc.configMap == "" then FreeName(c, vc)
    else if vc.configMap in c && !IsRuntime(c[vc.configMap]) then None
    else Some(vc.configMap)
  }

  function ExportRef(vc: VCenter, name: string): SecretRef {
    if vc.credentialsSecret.Some? then vc.credentialsSecret.value else SecretRef(name, DEFAULT_PASS_KEY, "")
  }

  /** The runtime ConfigMap of a vCenter. There is no place in it for the password. */
  function Render(vc: VCenter, name: string, ref: SecretRef): ConfigMap {
    ConfigMap(name,
              map["app" := "rf2vc", LABEL_VCENTER := "true", LABEL_ORIGIN := "runtime"],
              Yaml(Spec(vc.id, vc.name, vc.url, vc.username, vc.insecure, vc.datacenter, vc.datastore, vc.folder,
              vc.isoFolder, vc.notes, if vc.dryRun then Some(true) else None, Some(ref))),
              0)
  }

  // ---------------------------------------------------------------- round trip

  /** A record read back from its own export, when its Secret does not exist. */
  function ReadBack(r: VCenter, secrets: Secrets, newId: string): VCenter {
    var cm := Render(Redact(r), r.configMap, ExportRef(r, r.configMap));
    var (password, cfg) := Credentials(secrets, FieldsOf(cm));
    Merged(cfg, cm.payload.spec.dryRun, password, Some(r), newId)
  }

  /** Loading an export gives the record back exactly when the record is one export left
      behind and its password does not claim to come from a Secret. */
  lemma RenderThenApply(r: VCenter, secrets: Secrets, newId: string)
    requires RecordOk(r.id, r)
    requires ExportRef(r, r.configMap).name !in secrets
    ensures ReadBack(r, secrets, newId) == r <==>
            && r.configOrigin == Runtime
            && r.credentialsSecret.Some?
            && (r.password != "" ==> r.passwordSource != FromSecret)
  {
    var ref := ExportRef(r, r.configMap);
    var cm := Render(Redact(r), r.configMap, ref);
    assert IsRuntime(cm);
    assert Credentials(secrets, FieldsOf(cm)) == ("", FieldsOf(cm));
    assert WithDefaults(FieldsOf(cm)).credentialsSecret == Some(ref);
  }
}
