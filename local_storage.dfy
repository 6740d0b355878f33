/**
 * The preference store of `src/hooks/useLocalStorage.ts`: a value kept in
 * `window.localStorage` under one key, stored verbatim when it is a string and
 * as JSON text otherwise, and read back the same way.
 *
 * `JSON.parse` and `JSON.stringify` are parameters: a parse that throws is
 * `None`, and so is a stringify that throws.
 */
module LocalStorage {
  import opened Wrappers
  import opened JsText

  /** `window.localStorage`, and whether the code runs where `window` exists. */
  class Storage {
    const hasWindow: bool
    var items: map<string, JsString>

    constructor(hasWindow: bool, items: map<string, JsString>)
      ensures this.hasWindow == hasWindow && this.items == items
    {
      this.hasWindow := hasWindow;
      this.items := items;
    }
  }

  /** A JavaScript value held by the hook: a string, or any other value `D`. */
  datatype JsValue<D> = Str(s: JsString) | Data(d: D)

  /** What `setValue` is passed: a value, or an updater applied to the current one. */
  datatype Update<!D> = Set(value: JsValue<D>) | Apply(f: JsValue<D> -> JsValue<D>)

  function Resolve<D>(u: Update<D>, current: JsValue<D>): JsValue<D> {
    match u
    case Set(v) => v
    case Apply(f) => f(current)
  }

  /** The text `setValue` stores: a string as it is, anything else through
      `JSON.stringify`. */
  function Serialize<D>(v: JsValue<D>, stringify: D -> Option<JsString>): (r: Option<JsString>)
    ensures r.None? ==> v.Data?
  {
    match v
    case Str(s) => Some(s)
    case Data(d) => stringify(d)
  }

  /** `readValue`: the initial value without a window, without a stored item or
      when parsing throws; the raw text when the initial value is a string; the
      parsed text otherwise. */
  function ReadValue<D>(hasWindow: bool, items: map<string, JsString>, key: string,
                        initial: JsValue<D>, parse: JsString -> Option<JsValue<D>>): (r: JsValue<D>)
    ensures r != initial ==> hasWindow && key in items
    ensures initial.Str? ==> r.Str?
  {
    if !hasWindow || key !in items then initial
    else if initial.Str? then Str(items[key])
    else parse(items[key]).GetOr(initial)
  }

  /** Without a window, or with nothing stored, the initial value is read; a
      stored text that does not parse reads as the initial value too. */
  lemma ReadValueFallsBack<D>(hasWindow: bool, items: map<string, JsString>, key: string,
                              initial: JsValue<D>, parse: JsString -> Option<JsValue<D>>)
    ensures !hasWindow || key !in items ==> ReadValue(hasWindow, items, key, initial, parse) == initial
    ensures hasWindow && key in items && initial.Data? && parse(items[key]).None? ==>
              ReadValue(hasWindow, items, key, initial, parse) == initial
    ensures hasWindow && key in items && initial.Str? ==>
              ReadValue(hasWindow, items, key, initial, parse) == Str(items[key])
  {
  }

  /** What `setValue` writes, `readValue` reads back: a string under a hook whose
      initial value is a string, and any other value whose JSON text parses back
      to it under a hook whose initial value is not. */
  lemma WriteThenRead<D>(items: map<string, JsString>, key: string, initial: JsValue<D>,
                         parse: JsString -> Option<JsValue<D>>, stringify: D -> Option<JsString>,
                         v: JsValue<D>)
    requires Serialize(v, stringify).Some?
    requires v.Str? <==> initial.Str?
    requires v.Data? ==> parse(Serialize(v, stringify).value) == Some(v)
    ensures ReadValue(true, items[key := Serialize(v, stringify).value], key, initial, parse) == v
  {
  }

  /** A string written under a hook whose initial value is not a string is stored
      verbatim and read back through `JSON.parse`. */
  lemma StringUnderDataHook<D>(items: map<string, JsString>, key: string, initial: JsValue<D>,
                               parse: JsString -> Option<JsValue<D>>, s: JsString)
    requires initial.Data?
    ensures ReadValue(true, items[key := s], key, initial, parse) == parse(s).GetOr(initial)
  {
  }

  class LocalStorageHook<D> {
    const storage: Storage
    const key: string
    const initialValue: JsValue<D>
    const parse: JsString -> Option<JsValue<D>>
    const stringify: D -> Option<JsString>
    var storedValue: JsValue<D>

    /** `readValue()` against the current contents of the store. */
    function Read(): JsValue<D>
      reads storage
    {
      ReadValue(storage.hasWindow, storage.items, key, initialValue, parse)
    }

    /** `useState(initialValue)`: the first render shows the initial value. */
    constructor(storage: Storage, key: string, initialValue: JsValue<D>,
                parse: JsString -> Option<JsValue<D>>, stringify: D -> Option<JsString>)
      ensures this.storage == storage && this.key == key && this.initialValue == initialValue
      ensures this.parse == parse && this.stringify == stringify
      ensures storedValue == initialValue
    {
      this.storage := storage;
      this.key := key;
      this.initialValue := initialValue;
      this.parse := parse;
      this.stringify := stringify;
      storedValue := initialValue;
    }

    /** The mount effect and the `storage` and `local-storage` listeners: the
        value is read again from the store. */
    method Sync()
      modifies this`storedValue
      ensures storedValue == Read()
    {
      storedValue := ReadValue(storage.hasWindow, storage.items, key, initialValue, parse);
    }

    /** `setValue`: the update is resolved against the current value and, when
        there is a window, the text can be produced and `setItem` does not throw,
        the text is stored and the value set; the `local-storage` event it then
        dispatches runs the hook's own listener, so the value that stays current
        is what the store reads back. Otherwise nothing changes. `setItemThrows`
        stands for a full or disabled store. */
    method SetValue(update: Update<D>, setItemThrows: bool) returns (ok: bool)
      modifies this`storedValue, storage`items
      ensures var v := Resolve(update, old(storedValue));
        && (ok <==> storage.hasWindow && Serialize(v, stringify).Some? && !setItemThrows)
        && (ok ==> storage.items == old(storage.items)[key := Serialize(v, stringify).value] && storedValue == Read())
        && (!ok ==> storage.items == old(storage.items) && storedValue == old(storedValue))
      ensures var v := Resolve(update, old(storedValue));
        (ok && (v.Str? <==> initialValue.Str?) && (v.Data? ==> parse(Serialize(v, stringify).value) == Some(v)))
          ==> storedValue == v
    {
      if !storage.hasWindow {
        return false;
      }
      var v := Resolve(update, storedValue);
      var text := Serialize(v, stringify);
      if text.None? || setItemThrows {
        return false;
      }
      storage.items := storage.items[key := text.value];
      storedValue := v;
      Sync();
      if (v.Str? <==> initialValue.Str?) && (v.Data? ==> parse(text.value) == Some(v)) {
        WriteThenRead(old(storage.items), key, initialValue, parse, stringify, v);
      }
      ok := true;
    }
  }
}
