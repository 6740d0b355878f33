/**
 * The configuration screen of `src/app/setup/page.tsx`: six text fields kept
 * through the preference store under `firebaseConfig`, a per-field update and
 * the completeness check before the redirect to the login page.
 */
module Setup {
  import opened Wrappers
  import opened JsText
  import opened LocalStorage
  import opened Ui

  /** The config object the page edits: property name to string value. */
  type ConfigRecord = map<string, string>

  const StorageKey: string := "firebaseConfig"

  const FieldNames: seq<string> :=
    ["apiKey", "authDomain", "projectId", "storageBucket", "messagingSenderId", "appId"]

  const InitialConfig: ConfigRecord := map[
    "apiKey" := "", "authDomain" := "", "projectId" := "",
    "storageBucket" := "", "messagingSenderId" := "", "appId" := ""]

  const IncompleteToast: Toast :=
    Toast("Incomplete Configuration", "Please fill out all Firebase configuration fields.", true)

  const SavedToast: Toast :=
    Toast("Configuration Saved",
          "Your Firebase config has been saved to local storage. You will be redirected to the login page.",
          false)

  const LoginRoute: string := "/login"

  /** The initial config has exactly the six fields, all empty. */
  lemma InitialConfigShape()
    ensures InitialConfig.Keys == set f | f in FieldNames
    ensures |InitialConfig.Keys| == 6
    ensures forall k :: k in InitialConfig ==> InitialConfig[k] == ""
  {
    assert InitialConfig.Keys == {"apiKey", "authDomain", "projectId", "storageBucket", "messagingSenderId", "appId"};
  }

  /** The properties `{ ...prev }` copies. A stored value that parsed to a
      string contributes none here. */
  function Spread(prev: JsValue<ConfigRecord>): ConfigRecord {
    match prev
    case Data(c) => c
    case Str(_) => map[]
  }

  /** `{ ...prevConfig, [id]: value }`: the named property takes the new value,
      every other property keeps its own. */
  function WithField(prev: JsValue<ConfigRecord>, id: string, value: string): (r: JsValue<ConfigRecord>)
    ensures r.Data?
    ensures r.d.Keys == Spread(prev).Keys + {id} && r.d[id] == value
    ensures forall k :: k in Spread(prev) && k != id ==> r.d[k] == Spread(prev)[k]
  {
    Data(Spread(prev)[id := value])
  }

  /** `Object.values(config).some(v => v === '')`. The values of a string are its
      one-character strings, never empty. */
  predicate HasEmptyField(config: JsValue<ConfigRecord>): (b: bool)
    ensures b <==> config.Data? && "" in config.d.Values
  {
    config.Data? && exists k :: k in config.d && config.d[k] == ""
  }

  /** The initial config fails the check, and filling every field passes it. */
  lemma CompletenessCheck(c: ConfigRecord)
    ensures HasEmptyField(Data(InitialConfig))
    ensures c.Keys == InitialConfig.Keys ==>
              (!HasEmptyField(Data(c)) <==> forall f :: f in FieldNames ==> c[f] != "")
  {
    assert InitialConfig["apiKey"] == "";
    InitialConfigShape();
  }

  /** A record that passes the check and has the two fields the connection
      manager reads has both of them non-empty; the converse fails. A record
      lacking the two fields altogether, such as `{}`, passes the check. */
  lemma StricterThanLoadGate()
    ensures forall c: ConfigRecord :: "apiKey" in c && "projectId" in c && !HasEmptyField(Data(c)) ==>
              c["apiKey"] != "" && c["projectId"] != ""
    ensures var c := InitialConfig["apiKey" := "key"]["projectId" := "demo"];
              c["apiKey"] != "" && c["projectId"] != "" && HasEmptyField(Data(c))
    ensures var e: ConfigRecord := map[]; !HasEmptyField(Data(e)) && "apiKey" !in e
  {
    var c := InitialConfig["apiKey" := "key"]["projectId" := "demo"];
    assert c["appId"] == "";
  }

  class SetupPage {
    const config: LocalStorageHook<ConfigRecord>
    var toasts: seq<Toast>
    /** The route the delayed `router.push` will go to, once one is scheduled. */
    var redirect: Option<string>

    /** The page's store entry: `useLocalStorage('firebaseConfig', <six empty fields>)`. */
    ghost predicate Valid() {
      config.key == StorageKey && config.initialValue == Data(InitialConfig)
    }

    constructor(storage: Storage, parse: JsString -> Option<JsValue<ConfigRecord>>,
                stringify: ConfigRecord -> Option<JsString>)
      ensures fresh(config)
      ensures config.storage == storage && config.key == StorageKey && config.initialValue == Data(InitialConfig)
      ensures config.storedValue == Data(InitialConfig) && config.parse == parse && config.stringify == stringify
      ensures toasts == [] && redirect.None?
      ensures Valid()
    {
      config := new LocalStorageHook(storage, StorageKey, Data(InitialConfig), parse, stringify);
      toasts := [];
      redirect := None;
    }

    /** `handleChange`: the field named by the input's id is replaced through
        the preference store, on top of the current value; the value then shown
        is the record read back, which is the new one whenever the JSON text
        parses back to it. */
    method HandleChange(id: string, value: string, setItemThrows: bool) returns (ok: bool)
      requires Valid()
      modifies config`storedValue, config.storage`items
      ensures var v := WithField(old(config.storedValue), id, value);
        && (ok <==> config.storage.hasWindow && config.stringify(v.d).Some? && !setItemThrows)
        && (ok ==> config.storedValue == config.Read() &&
                   config.storage.items == old(config.storage.items)[StorageKey := config.stringify(v.d).value])
        && (!ok ==> config.storedValue == old(config.storedValue) && config.storage.items == old(config.storage.items))
      ensures var v := WithField(old(config.storedValue), id, value);
        ok && config.parse(config.stringify(v.d).value) == Some(v) ==> config.storedValue == v
    {
      ok := config.SetValue(Apply(prev => WithField(prev, id, value)), setItemThrows);
    }

    /** `handleSave`: an empty field shows an error and nothing else happens;
        otherwise a confirmation is shown and the redirect to the login page is
        scheduled. Neither path writes to the store. */
    method HandleSave() returns (saved: bool)
      modifies this`toasts, this`redirect
      ensures saved <==> !HasEmptyField(config.storedValue)
      ensures !saved ==> toasts == old(toasts) + [IncompleteToast] && redirect == old(redirect)
      ensures saved ==> toasts == old(toasts) + [SavedToast] && redirect == Some(LoginRoute)
    {
      if HasEmptyField(config.storedValue) {
        toasts := toasts + [IncompleteToast];
        return false;
      }
      toasts := toasts + [SavedToast];
      redirect := Some(LoginRoute);
      saved := true;
    }
  }
}
