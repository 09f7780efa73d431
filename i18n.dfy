/**
 * The translation provider: the current locale, adopted from storage when a
 * supported one was saved, and `t`, which walks a dotted key through the
 * locale's message table.
 */
module I18n {
  import opened Wrappers
  import opened Text
  import Browser

  datatype Locale = En | Ja

  /** The locale's code, as stored. */
  function Code(l: Locale): string
  {
    match l
    case En => "en"
    case Ja => "ja"
  }

  /** `savedLocale === 'en' || savedLocale === 'ja'`: only a supported code is adopted. */
  function ParseLocale(saved: Option<string>): (l: Option<Locale>)
    ensures l.Some? <==> saved == Some("en") || saved == Some("ja")
    ensures l.Some? ==> Code(l.value) == saved.value
  {
    if saved == Some("en") then Some(En) else if saved == Some("ja") then Some(Ja) else None
  }

  /** A stored code reads back as the locale that wrote it. */
  lemma CodeRoundTrip(l: Locale)
    ensures ParseLocale(Some(Code(l))) == Some(l)
  {
  }

  /** A message table: a string, or named sub-tables and strings. */
  datatype Message = Leaf(text: string) | Table(entries: seq<(string, Message)>)

  /** `value?.[k]`: the entry named `k` of a table; nothing below a string or a missing value. */
  function Child(v: Option<Message>, k: string): (r: Option<Message>)
    ensures v.None? || v.value.Leaf? ==> r.None?
    ensures r.Some? ==> exists j :: 0 <= j < |v.value.entries| && v.value.entries[j] == (k, r.value)
  {
    if v.None? || v.value.Leaf? then None else Find(v.value.entries, k)
  }

  /** The first entry named `k`. */
  function Find(entries: seq<(string, Message)>, k: string): (r: Option<Message>)
    ensures r.None? <==> forall j :: 0 <= j < |entries| ==> entries[j].0 != k
    ensures r.Some? ==> exists j :: 0 <= j < |entries| && entries[j] == (k, r.value)
    decreases |entries|
  {
    if entries == [] then None
    else if entries[0].0 == k then Some(entries[0].1)
    else Find(entries[1..], k)
  }

  /** The value after walking the keys in order. */
  function Walk(root: Message, keys: seq<string>): Option<Message>
    decreases |keys|
  {
    if keys == [] then Some(root) else Child(Walk(root, keys[..|keys| - 1]), keys[|keys| - 1])
  }

  /** `value || key`: a missing value or an empty string falls back to the key. */
  function Shown(v: Option<Message>, key: string): (r: Message)
    ensures v.None? ==> r == Leaf(key)
    ensures v.Some? && v.value.Leaf? && v.value.text != "" ==> r == v.value
  {
    if v.None? || v.value == Leaf("") then Leaf(key) else v.value
  }

  /** Once a segment is missing every longer path is missing too. */
  lemma {:induction false} MissingStaysMissing(root: Message, keys: seq<string>, i: nat)
    requires i <= |keys| && Walk(root, keys[..i]) == None
    ensures Walk(root, keys) == None
    decreases |keys| - i
  {
    if i < |keys| {
      assert keys[..i + 1][..i] == keys[..i];
      MissingStaysMissing(root, keys, i + 1);
    } else {
      assert keys[..i] == keys;
    }
  }

  /** Once the walk reaches a string, any further segment is missing. */
  lemma LeafEndsWalk(root: Message, keys: seq<string>, i: nat)
    requires i < |keys| && Walk(root, keys[..i]).Some? && Walk(root, keys[..i]).value.Leaf?
    ensures Walk(root, keys) == None
  {
    assert keys[..i + 1][..i] == keys[..i];
    MissingStaysMissing(root, keys, i + 1);
  }

  class Provider {
    var locale: Locale
    const messages: Locale -> Message

    /** `useState<Locale>('en')`. */
    constructor (messages: Locale -> Message)
      ensures locale == En && this.messages == messages
    {
      locale := En;
      this.messages := messages;
    }

    /** The mount effect: a stored `en` or `ja` is adopted, anything else leaves the locale alone. */
    method LoadSaved(storage: Browser.Storage)
      modifies this
      ensures ParseLocale(storage.GetItem("locale")).Some? ==> locale == ParseLocale(storage.GetItem("locale")).value
      ensures ParseLocale(storage.GetItem("locale")).None? ==> locale == old(locale)
    {
      var saved := ParseLocale(storage.GetItem("locale"));
      if saved.Some? {
        locale := saved.value;
      }
    }

    /** `setLocale`: the state and the stored code change together. */
    method SetLocale(newLocale: Locale, storage: Browser.Storage)
      modifies this, storage
      ensures locale == newLocale
      ensures storage.items == old(storage.items)["locale" := Code(newLocale)]
      ensures ParseLocale(storage.GetItem("locale")) == Some(newLocale)
    {
      locale := newLocale;
      storage.SetItem("locale", Code(newLocale));
    }

    /** `t(key)`: the `for` loop over the segments of `key.split('.')`. */
    method T(key: string) returns (r: Message)
      ensures r == Shown(Walk(messages(locale), Split(key, '.')), key)
    {
      var keys := Split(key, '.');
      var value := Some(messages(locale));
      for i := 0 to |keys|
        invariant value == Walk(messages(locale), keys[..i])
      {
        assert keys[..i + 1][..i] == keys[..i];
        value := Child(value, keys[i]);
      }
      assert keys[..|keys|] == keys;
      r := Shown(value, key);
    }
  }

  /**
   * `t` gives the locale's string for a key naming a non-empty leaf, and the
   * key itself when a segment of the path is missing or passes through a string.
   */
  lemma TMeaning(table: Message, key: string)
    ensures var keys := Split(key, '.');
            && (Walk(table, keys).Some? && Walk(table, keys).value.Leaf? && Walk(table, keys).value.text != "" ==>
                  Shown(Walk(table, keys), key) == Walk(table, keys).value)
            && (forall i :: 0 <= i <= |keys| && Walk(table, keys[..i]) == None ==> Shown(Walk(table, keys), key) == Leaf(key))
            && (forall i :: 0 <= i < |keys| && Walk(table, keys[..i]).Some? && Walk(table, keys[..i]).value.Leaf? ==>
                  Shown(Walk(table, keys), key) == Leaf(key))
  {
    var keys := Split(key, '.');
    forall i | 0 <= i <= |keys| && Walk(table, keys[..i]) == None ensures Walk(table, keys) == None {
      MissingStaysMissing(table, keys, i);
    }
    forall i | 0 <= i < |keys| && Walk(table, keys[..i]).Some? && Walk(table, keys[..i]).value.Leaf?
      ensures Walk(table, keys) == None
    {
      LeafEndsWalk(table, keys, i);
    }
  }

  /** `useI18n`: outside a provider there is no context, and the hook throws. */
  datatype Hook<C> = Context(value: C) | Throws(message: string)

  function UseI18n<C>(context: Option<C>): (h: Hook<C>)
    ensures context.None? <==> h.Throws?
    ensures h.Throws? ==> h.message == "useI18n must be used within I18nProvider"
    ensures context.Some? ==> h == Context(context.value)
  {
    if context.None? then Throws("useI18n must be used within I18nProvider") else Context(context.value)
  }
}
