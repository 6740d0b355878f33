/**
 * The connection manager of `src/lib/firebase.ts`: the gate that loads the
 * obfuscated config from the preference store, and the module state `app`,
 * `auth` and `firestore` that `initializeFirebase` sets, resets and re-derives.
 *
 * The SDK is opaque: an outcome record says which of its calls throw, and
 * `registered` is the SDK's own default app, what `getApps()` and `getApp()` see.
 */
module Firebase {
  import opened Wrappers
  import opened JsText
  import Crypto
  import Base64
  import LocalStorage

  const ConfigKey: string := "firebaseConfig"

  /** A property of the parsed value as `config.apiKey` reads it: absent
      (`undefined`), a string, or some other JSON value with its truthiness. */
  datatype Property = Missing | Text(s: JsString) | OtherValue(truthy: bool)

  predicate Truthy(p: Property) {
    match p
    case Missing => false
    case Text(s) => s != []
    case OtherValue(t) => t
  }

  /** The options object `initializeApp` receives: the parsed object's properties. */
  type FirebaseOptions = map<string, Property>

  function Prop(o: FirebaseOptions, name: string): Property {
    if name in o then o[name] else Missing
  }

  /** What `JSON.parse` yields, as far as the gate looks at it: `null`, an object
      (arrays included), or a boolean, number or string, none of which has an
      `apiKey` property. */
  datatype Parsed = JsonNull | JsonObject(props: FirebaseOptions) | JsonPrimitive

  /** What `getFirebaseConfig` returns, and whether it removed the stored item. */
  datatype ConfigRead = ConfigRead(config: Option<FirebaseOptions>, removeStored: bool)

  /** `getFirebaseConfig` on the stored item, with `JSON.parse` as a parameter
      (`None` when it throws). An empty item is falsy and skipped like a missing
      one. Everything that throws inside the `try` (a ciphertext `atob` refuses,
      an empty decryption, text that does not parse, a parsed `null` whose
      `apiKey` cannot be read) removes the item. */
  function ReadConfig(hasWindow: bool, stored: Option<JsString>, parse: JsString -> Option<Parsed>): (r: ConfigRead)
    ensures r.config.Some? ==>
              !r.removeStored && Truthy(Prop(r.config.value, "apiKey")) && Truthy(Prop(r.config.value, "projectId"))
    ensures r.removeStored ==> hasWindow && stored.Some? && stored.value != []
  {
    if !hasWindow || stored.None? || stored.value == [] then ConfigRead(None, false)
    else match Crypto.Decrypt(stored.value)
      case Failure(_) => ConfigRead(None, true)
      case Success(text) =>
        if text == [] then ConfigRead(None, true)
        else match parse(text)
          case None => ConfigRead(None, true)
          case Some(JsonNull) => ConfigRead(None, true)
          case Some(JsonPrimitive) => ConfigRead(None, false)
          case Some(JsonObject(o)) =>
            if Truthy(Prop(o, "apiKey")) && Truthy(Prop(o, "projectId")) then ConfigRead(Some(o), false)
            else ConfigRead(None, false)
  }

  /** The gate: a config comes back exactly when the stored item decrypts to a
      non-empty text that parses to an object with truthy `apiKey` and
      `projectId`, and it is that object. */
  lemma ConfigAcceptedIff(hasWindow: bool, stored: Option<JsString>, parse: JsString -> Option<Parsed>)
    ensures ReadConfig(hasWindow, stored, parse).config.Some? <==>
              hasWindow && stored.Some? && stored.value != [] &&
              Crypto.Decrypt(stored.value).Success? && Crypto.Decrypt(stored.value).value != [] &&
              parse(Crypto.Decrypt(stored.value).value).Some? &&
              parse(Crypto.Decrypt(stored.value).value).value.JsonObject? &&
              Truthy(Prop(parse(Crypto.Decrypt(stored.value).value).value.props, "apiKey")) &&
              Truthy(Prop(parse(Crypto.Decrypt(stored.value).value).value.props, "projectId"))
    ensures ReadConfig(hasWindow, stored, parse).config.Some? ==>
              ReadConfig(hasWindow, stored, parse).config.value ==
                parse(Crypto.Decrypt(stored.value).value).value.props
    ensures ReadConfig(hasWindow, stored, parse).config.Some? ==> !ReadConfig(hasWindow, stored, parse).removeStored
  {
  }

  /** The item is removed exactly when decryption or parsing fails (or yields
      nothing usable as an object); a parsed value that merely lacks the two
      fields is kept. */
  lemma ConfigRemovedIff(hasWindow: bool, stored: Option<JsString>, parse: JsString -> Option<Parsed>)
    ensures ReadConfig(hasWindow, stored, parse).removeStored <==>
              hasWindow && stored.Some? && stored.value != [] &&
              (Crypto.Decrypt(stored.value).Failure? ||
               Crypto.Decrypt(stored.value).value == [] ||
               parse(Crypto.Decrypt(stored.value).value).None? ||
               parse(Crypto.Decrypt(stored.value).value) == Some(JsonNull))
  {
  }

  /** A config stored as `encrypt` of its JSON text is accepted. */
  lemma EncryptedConfigAccepted(text: JsString, o: FirebaseOptions, parse: JsString -> Option<Parsed>)
    requires IsLatin1(text) && text != []
    requires parse(text) == Some(JsonObject(o)) && Truthy(Prop(o, "apiKey")) && Truthy(Prop(o, "projectId"))
    ensures Crypto.Encrypt(text).Success?
    ensures ReadConfig(true, Some(Crypto.Encrypt(text).value), parse) == ConfigRead(Some(o), false)
  {
    Crypto.DecryptEncrypt(text);
    Crypto.EncryptShape(text);
  }

  /** A stored item holding JSON object text in plain form, as the setup screen
      writes it, is not base64: it is discarded and removed. */
  lemma PlainJsonConfigDiscarded(stored: JsString, k: nat, parse: JsString -> Option<Parsed>)
    requires k < |stored| && stored[k] == 123
    ensures ReadConfig(true, Some(stored), parse) == ConfigRead(None, true)
  {
    Crypto.DecryptRejectsJsonObjectText(stored, k);
  }

  datatype App = App(options: FirebaseOptions)
  datatype Auth = Auth(app: App)
  datatype Firestore = Firestore(app: App)

  /** Which SDK calls throw during one `initializeFirebase`. A rejected
      `enableIndexedDbPersistence` is only logged and changes nothing, so it
      has no field here. */
  datatype SdkOutcomes = SdkOutcomes(
    initializeAppThrows: bool, getAuthThrows: bool, getFirestoreThrows: bool)

  datatype InitError = InitializeAppFailed | GetAuthFailed | GetFirestoreFailed

  const AuthNotInitialized: string := "Auth is not initialized. Make sure Firebase is configured correctly."
  const FirestoreNotInitialized: string := "Firestore is not initialized. Make sure Firebase is configured correctly."

  class FirebaseModule {
    const storage: LocalStorage.Storage
    var app: Option<App>
    var auth: Option<Auth>
    var firestore: Option<Firestore>
    /** The SDK's default app. */
    var registered: Option<App>

    /** The handles always derive from the module's app, and that app is the
        SDK's default app. */
    ghost predicate Valid()
      reads this
    {
      && (app.Some? ==> registered == app)
      && (auth.Some? ==> app.Some? && auth.value == Auth(app.value))
      && (firestore.Some? ==> app.Some? && firestore.value == Firestore(app.value))
    }

    /** Module evaluation, before the call at the bottom of the file: all three
        handles are `null`. */
    constructor(storage: LocalStorage.Storage, registered: Option<App>)
      ensures Valid()
      ensures this.storage == storage && this.registered == registered
      ensures app.None? && auth.None? && firestore.None?
    {
      this.storage := storage;
      this.registered := registered;
      app := None;
      auth := None;
      firestore := None;
    }

    function StoredConfig(): Option<JsString>
      reads storage
    {
      if ConfigKey in storage.items then Some(storage.items[ConfigKey]) else None
    }

    /** `getFirebaseConfig` with its one side effect, the removal of a broken item. */
    method GetFirebaseConfig(parse: JsString -> Option<Parsed>) returns (config: Option<FirebaseOptions>)
      modifies storage`items
      ensures var read := ReadConfig(storage.hasWindow, old(StoredConfig()), parse);
        config == read.config &&
        storage.items == if read.removeStored then old(storage.items) - {ConfigKey} else old(storage.items)
    {
      var read := ReadConfig(storage.hasWindow, StoredConfig(), parse);
      if read.removeStored {
        storage.items := storage.items - {ConfigKey};
      }
      config := read.config;
    }

    /** `initializeFirebase`. Without an app and with a config, the three
        handles are built, and any failure resets all three and is rethrown.
        Otherwise, once the SDK has a default app, the handles are re-derived
        from it; a failure there is not caught and leaves the handles already
        assigned. No default app and nothing to build: nothing changes. */
    method InitializeFirebase(parse: JsString -> Option<Parsed>, sdk: SdkOutcomes) returns (r: Result<(), InitError>)
      requires Valid()
      modifies this, storage`items
      ensures Valid()
      ensures var read := ReadConfig(storage.hasWindow, old(StoredConfig()), parse);
        storage.items == if read.removeStored then old(storage.items) - {ConfigKey} else old(storage.items)
      ensures var read := ReadConfig(storage.hasWindow, old(StoredConfig()), parse);
        old(app).None? && read.config.Some? ==>
          var a := App(read.config.value);
          if sdk.initializeAppThrows then
            r == Failure(InitializeAppFailed) && app.None? && auth.None? && firestore.None? &&
            registered == old(registered)
          else
            registered == Some(a) &&
            if sdk.getAuthThrows || sdk.getFirestoreThrows then
              r.Failure? && app.None? && auth.None? && firestore.None?
            else
              r == Success(()) && app == Some(a) && auth == Some(Auth(a)) && firestore == Some(Firestore(a))
      ensures var read := ReadConfig(storage.hasWindow, old(StoredConfig()), parse);
        old(app).Some? || read.config.None? ==>
          registered == old(registered) &&
          if old(registered).None? then
            r == Success(()) && app == old(app) && auth == old(auth) && firestore == old(firestore)
          else
            var a := old(registered).value;
            app == old(registered) &&
            if sdk.getAuthThrows then
              r == Failure(GetAuthFailed) && auth == old(auth) && firestore == old(firestore)
            else if sdk.getFirestoreThrows then
              r == Failure(GetFirestoreFailed) && auth == Some(Auth(a)) && firestore == old(firestore)
            else
              r == Success(()) && auth == Some(Auth(a)) && firestore == Some(Firestore(a))
    {
      var firebaseConfig := GetFirebaseConfig(parse);
      if app.None? && firebaseConfig.Some? {
        if sdk.initializeAppThrows {
          app, auth, firestore := None, None, None;
          return Failure(InitializeAppFailed);
        }
        var a := App(firebaseConfig.value);
        registered := Some(a);
        app := Some(a);
        if sdk.getAuthThrows {
          app, auth, firestore := None, None, None;
          return Failure(GetAuthFailed);
        }
        auth := Some(Auth(a));
        if sdk.getFirestoreThrows {
          app, auth, firestore := None, None, None;
          return Failure(GetFirestoreFailed);
        }
        firestore := Some(Firestore(a));
        return Success(());
      } else if registered.Some? {
        var a := registered.value;
        app := Some(a);
        if sdk.getAuthThrows {
          return Failure(GetAuthFailed);
        }
        auth := Some(Auth(a));
        if sdk.getFirestoreThrows {
          return Failure(GetFirestoreFailed);
        }
        firestore := Some(Firestore(a));
      }
      r := Success(());
    }

    /** `getFirebaseAuth`: the handle, or the error it throws while it is `null`. */
    method GetFirebaseAuth() returns (r: Result<Auth, string>)
      ensures auth.None? ==> r == Failure(AuthNotInitialized)
      ensures auth.Some? ==> r == Success(auth.value)
    {
      if auth.None? {
        return Failure(AuthNotInitialized);
      }
      r := Success(auth.value);
    }

    /** `getFirebaseFirestore`: likewise for the database handle. */
    method GetFirebaseFirestore() returns (r: Result<Firestore, string>)
      ensures firestore.None? ==> r == Failure(FirestoreNotInitialized)
      ensures firestore.Some? ==> r == Success(firestore.value)
    {
      if firestore.None? {
        return Failure(FirestoreNotInitialized);
      }
      r := Success(firestore.value);
    }
  }

  /** Two calls in a row with a working SDK: the first builds the handles from
      the loaded config, the second builds no new app and leaves all three
      handles as the first left them. */
  method InitializeTwice(m: FirebaseModule, parse: JsString -> Option<Parsed>, sdk: SdkOutcomes)
    returns (r1: Result<(), InitError>, r2: Result<(), InitError>)
    requires m.Valid() && m.app.None?
    requires !sdk.initializeAppThrows && !sdk.getAuthThrows && !sdk.getFirestoreThrows
    requires ReadConfig(m.storage.hasWindow, m.StoredConfig(), parse).config.Some?
    modifies m, m.storage`items
    ensures var a := App(old(ReadConfig(m.storage.hasWindow, m.StoredConfig(), parse)).config.value);
      r1 == Success(()) && r2 == Success(()) &&
      m.app == Some(a) && m.auth == Some(Auth(a)) && m.firestore == Some(Firestore(a)) && m.registered == Some(a)
  {
    r1 := m.InitializeFirebase(parse, sdk);
    r2 := m.InitializeFirebase(parse, sdk);
  }
}
