/**
 * The checks made before the dev server is spawned: `package.json` must be
 * present and must define a truthy `scripts.dev`. Reading the file and
 * `JSON.parse` are abstracted: the manifest arrives already parsed.
 */
module Setup {
  import opened Wrappers
  import PackageManager

  /**
   * A parsed JSON value. A number is kept as an integer with the same
   * truthiness (zero, including `-0`, is falsy; every other number is truthy).
   */
  datatype Json =
    | JNull
    | JBool(b: bool)
    | JNumber(n: int)
    | JString(s: string)
    | JArray(items: seq<Json>)
    | JObject(fields: map<string, Json>)

  /**
   * Property access `v.key` on a value that is not `null`: an object's own
   * field, and `undefined` (None) on every other kind of value, since no
   * prototype of a parsed JSON value has a `scripts` or `dev` property.
   */
  function Field(v: Json, key: string): (r: Option<Json>)
    ensures r.Some? <==> v.JObject? && key in v.fields
    ensures r.Some? ==> r.value == v.fields[key]
  {
    if v.JObject? && key in v.fields then Some(v.fields[key]) else None
  }

  /**
   * JavaScript truthiness of a value that may be `undefined`: the falsy
   * values a parsed JSON value can take are `undefined`, `null`, `false`, `0`
   * and the empty string.
   */
  predicate Truthy(v: Option<Json>)
    ensures Truthy(v) <==>
      !(v == None || v == Some(JNull) || v == Some(JBool(false)) || v == Some(JNumber(0)) || v == Some(JString("")))
  {
    match v
    case None => false
    case Some(JNull) => false
    case Some(JBool(b)) => b
    case Some(JNumber(n)) => n != 0
    case Some(JString(s)) => s != ""
    case Some(JArray(_)) => true
    case Some(JObject(_)) => true
  }

  /** Why a run stops before anything is spawned. */
  datatype SetupError =
    | MissingManifest   // no package.json in the working directory
    | NullManifest      // package.json holds `null`: reading `pkg.scripts` throws
    | MissingDevScript  // `pkg.scripts` or `pkg.scripts.dev` is missing or falsy

  /** The manifest and dev-script checks, in the order the script makes them. */
  function CheckSetup(files: set<string>, manifest: Json): (r: Outcome<SetupError>)
    ensures r != Fail(MissingManifest) ==> "package.json" in files
    ensures r == Fail(MissingDevScript) ==> "package.json" in files && !manifest.JNull?
    ensures r == Pass ==> Truthy(Field(manifest, "scripts")) && Truthy(Field(Field(manifest, "scripts").value, "dev"))
  {
    if "package.json" !in files then Fail(MissingManifest)
    else if manifest.JNull? then Fail(NullManifest)
    else
      var scripts := Field(manifest, "scripts");
      if !Truthy(scripts) || !Truthy(Field(scripts.value, "dev")) then Fail(MissingDevScript)
      else Pass
  }

  /**
   * The checks pass exactly when package.json is present, its `scripts` is an
   * object and its `dev` entry is truthy; each failure is told apart.
   */
  lemma SetupAcceptedIff(files: set<string>, manifest: Json)
    ensures CheckSetup(files, manifest) == Pass <==>
      && "package.json" in files
      && manifest.JObject? && "scripts" in manifest.fields
      && manifest.fields["scripts"].JObject?
      && "dev" in manifest.fields["scripts"].fields
      && Truthy(Some(manifest.fields["scripts"].fields["dev"]))
    ensures CheckSetup(files, manifest) == Fail(MissingManifest) <==> "package.json" !in files
    ensures CheckSetup(files, manifest) == Fail(NullManifest) <==> "package.json" in files && manifest.JNull?
  {
  }

  /** A dev script that is the empty string is rejected exactly like an absent one. */
  lemma EmptyDevScriptRejected(files: set<string>, fields: map<string, Json>, scripts: map<string, Json>)
    requires "package.json" in files
    ensures CheckSetup(files, JObject(fields["scripts" := JObject(scripts["dev" := JString("")])]))
         == CheckSetup(files, JObject(fields["scripts" := JObject(scripts - {"dev"})]))
         == Fail(MissingDevScript)
  {
  }

  /** What the script does once its checks are made: spawn a command or exit with a status. */
  datatype Launch = Spawn(command: string) | Exit(status: int)

  /**
   * The decision made before the dev server starts: a failed check exits
   * with status 1 and spawns nothing; otherwise the dev command of the
   * resolved package manager is spawned.
   */
  function Plan(files: set<string>, manifest: Json): (r: Launch)
    ensures r.Exit? <==> CheckSetup(files, manifest).Fail?
    ensures r.Exit? ==> r.status == 1
    ensures r.Spawn? ==> r.command in {"pnpm dev", "yarn dev", "npm run dev"}
    ensures r.Spawn? ==> Some(r.command) == PackageManager.DevCommand(PackageManager.PackageManagerOf(files))
  {
    var pm := PackageManager.PackageManagerOf(files);
    match CheckSetup(files, manifest)
    case Fail(_) => Exit(1)
    case Pass =>
      PackageManager.ResolvedDevCommand(files);
      Spawn(PackageManager.DevCommand(pm).value)
  }
}
