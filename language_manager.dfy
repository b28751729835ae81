/**
 * The interface-language singleton: nested translation tables per language,
 * dotted-key lookup with a Spanish fallback, the language switch and the
 * list of callbacks told about a switch.
 */
module LanguageManager {
  import opened Wrappers

  /** The languages the manager offers. */
  const Available: seq<string> := ["es", "en", "pt"]

  /** A value read from a translation file: a text, a nested object, or anything else. */
  datatype Json = JStr(text: string) | JDict(items: seq<(string, Json)>) | JOther

  // ---------------------------------------------------------------------
  // `key.split('.')`

  function FirstDot(s: string): (i: nat)
    requires '.' in s
    ensures i < |s| && s[i] == '.' && '.' !in s[..i]
  {
    if s[0] == '.' then 0
    else
      assert s == [s[0]] + s[1..];
      var i := 1 + FirstDot(s[1..]);
      assert s[..i] == [s[0]] + s[1..][..i - 1];
      i
  }

  /** Python `s.split('.')`: the pieces between dots, empty ones included. */
  function Split(s: string): (parts: seq<string>)
    ensures |parts| >= 1
    ensures forall p :: p in parts ==> '.' !in p
    decreases |s|
  {
    if '.' !in s then [s]
    else
      var i := FirstDot(s);
      [s[..i]] + Split(s[i + 1..])
  }

  /** `'.'.join(parts)`. */
  function Join(parts: seq<string>): string
    requires |parts| >= 1
    decreases |parts|
  {
    if |parts| == 1 then parts[0] else parts[0] + "." + Join(parts[1..])
  }

  lemma {:induction false} JoinSplit(s: string)
    ensures Join(Split(s)) == s
    decreases |s|
  {
    if '.' in s {
      var i := FirstDot(s);
      JoinSplit(s[i + 1..]);
      assert s == s[..i] + "." + s[i + 1..];
    }
  }

  lemma {:induction false} FirstDotAfter(a: string, b: string)
    requires '.' !in a
    ensures '.' in a + "." + b && FirstDot(a + "." + b) == |a|
    decreases |a|
  {
    var s := a + "." + b;
    assert s[|a|] == '.';
    if a != [] {
      assert s[1..] == a[1..] + "." + b;
      FirstDotAfter(a[1..], b);
    }
  }

  lemma {:induction false} SplitJoin(parts: seq<string>)
    requires |parts| >= 1 && forall p :: p in parts ==> '.' !in p
    ensures Split(Join(parts)) == parts
    decreases |parts|
  {
    if |parts| > 1 {
      var head, tail := parts[0], parts[1..];
      var rest := Join(tail);
      var s := head + "." + rest;
      assert Join(parts) == s;
      assert head in parts;
      FirstDotAfter(head, rest);
      assert s[..|head|] == head;
      assert s[|head| + 1..] == rest;
      assert Split(s) == [head] + Split(rest);
      assert forall p :: p in tail ==> p in parts;
      SplitJoin(tail);
      assert parts == [head] + tail;
    }
  }

  // ---------------------------------------------------------------------
  // Walking a table

  /**
   * `k in d` and `d[k]` for an object as `json.load` builds it from its
   * members in file order: a key written twice keeps its last value.
   */
  function Find(items: seq<(string, Json)>, k: string): (r: Option<Json>)
    ensures r.Some? <==> exists i :: 0 <= i < |items| && items[i].0 == k
    ensures r.Some? ==> exists i :: 0 <= i < |items| && items[i] == (k, r.value) &&
                          forall j :: i < j < |items| ==> items[j].0 != k
  {
    if items == [] then None
    else
      var n := |items| - 1;
      if items[n].0 == k then Some(items[n].1)
      else
        var init := items[..n];
        var r := Find(init, k);
        FindInPrefix(items, init, k, r);
        r
  }

  /** What a lookup in all members but the last finds, when the last has another key. */
  lemma FindInPrefix(items: seq<(string, Json)>, init: seq<(string, Json)>, k: string, r: Option<Json>)
    requires |items| > 0 && init == items[..|items| - 1] && items[|items| - 1].0 != k
    requires r.Some? <==> exists i :: 0 <= i < |init| && init[i].0 == k
    requires r.Some? ==> exists i :: 0 <= i < |init| && init[i] == (k, r.value) &&
                           forall j :: i < j < |init| ==> init[j].0 != k
    ensures r.Some? <==> exists i :: 0 <= i < |items| && items[i].0 == k
    ensures r.Some? ==> exists i :: 0 <= i < |items| && items[i] == (k, r.value) &&
                          forall j :: i < j < |items| ==> items[j].0 != k
  {
    if r.Some? {
      var i :| 0 <= i < |init| && init[i] == (k, r.value) && forall j :: i < j < |init| ==> init[j].0 != k;
      assert items[i] == init[i];
      assert forall j :: i < j < |items| ==> items[j].0 != k by {
        forall j | i < j < |items| ensures items[j].0 != k {
          if j < |init| {
            assert items[j] == init[j];
          }
        }
      }
    } else {
      forall i | 0 <= i < |items| ensures items[i].0 != k {
        if i < |init| {
          assert items[i] == init[i];
        }
      }
    }
  }

  /** The value reached by following `keys` from `j`, or `None` when a step finds no object or no key. */
  function Resolve(j: Json, keys: seq<string>): Option<Json>
    decreases |keys|
  {
    if keys == [] then Some(j)
    else if j.JDict? && Find(j.items, keys[0]).Some? then Resolve(Find(j.items, keys[0]).value, keys[1..])
    else None
  }

  /** The table holding exactly one entry at the path `keys`. */
  function Nest(keys: seq<string>, leaf: Json): Json
    decreases |keys|
  {
    if keys == [] then leaf else JDict([(keys[0], Nest(keys[1..], leaf))])
  }

  lemma {:induction false} ResolveNest(keys: seq<string>, leaf: Json)
    ensures Resolve(Nest(keys, leaf), keys) == Some(leaf)
    decreases |keys|
  {
    if keys != [] {
      ResolveNest(keys[1..], leaf);
    }
  }

  /** `self._translations.get(lang, {})`. */
  function Table(translations: map<string, Json>, lang: string): Json
  {
    if lang in translations then translations[lang] else JDict([])
  }

  function Bracketed(key: string): string
  {
    "[" + key + "]"
  }

  /**
   * The text `get(key, fallback)` returns when the table of `tableLanguage`
   * is read and the Spanish fallback is tried unless `checkLanguage` is 'es'.
   */
  function Translate(translations: map<string, Json>, tableLanguage: string, checkLanguage: string,
                     key: string, fallback: Option<string>): string
  {
    var keys := Split(key);
    var found := Resolve(Table(translations, tableLanguage), keys);
    if found.Some? then
      (if found.value.JStr? then found.value.text else Bracketed(key))
    else
      var spanish := Resolve(Table(translations, "es"), keys);
      if checkLanguage != "es" && spanish.Some? && spanish.value.JStr? then spanish.value.text
      else fallback.GetOr(Bracketed(key))
  }

  /** A path that ends on a text gives that text. */
  lemma TranslateFound(translations: map<string, Json>, lang: string, check: string, path: seq<string>, text: string,
                       fallback: Option<string>)
    requires |path| >= 1 && forall p :: p in path ==> '.' !in p
    requires Resolve(Table(translations, lang), path) == Some(JStr(text))
    ensures Translate(translations, lang, check, Join(path), fallback) == text
  {
    SplitJoin(path);
  }

  /** A path that ends on an object or a non-text value gives `[key]`, the fallback notwithstanding. */
  lemma TranslateNotText(translations: map<string, Json>, lang: string, check: string, key: string,
                         fallback: Option<string>)
    requires Resolve(Table(translations, lang), Split(key)).Some?
    requires !Resolve(Table(translations, lang), Split(key)).value.JStr?
    ensures Translate(translations, lang, check, key, fallback) == Bracketed(key)
  {
  }

  /** When neither the table nor the Spanish table has a text at the path, the caller's fallback or `[key]` is shown. */
  lemma TranslateMissing(translations: map<string, Json>, lang: string, check: string, key: string,
                         fallback: Option<string>)
    requires Resolve(Table(translations, lang), Split(key)).None?
    requires check == "es" || Resolve(Table(translations, "es"), Split(key)).None?
      || !Resolve(Table(translations, "es"), Split(key)).value.JStr?
    ensures Translate(translations, lang, check, key, fallback) == fallback.GetOr(Bracketed(key))
  {
  }

  // ---------------------------------------------------------------------
  // Finding: the fallback test reads the manager's copy of the language

  /** A Spanish table with one text, and an English table without it. */
  function SpanishOnly(): map<string, Json>
  {
    map["es" := JDict([("title", JStr("Hola"))]), "en" := JDict([])]
  }

  /**
   * As written: after `set_current_global_language('en')` the manager's own
   * copy is still 'es', so a key missing in English skips the Spanish text.
   */
  lemma FallbackSkippedAsWritten()
    ensures Translate(SpanishOnly(), "en", "es", "title", None) == "[title]"
  {
    assert Split("title") == ["title"];
  }

  /**
   * Corrected: testing the language whose table was read, a key missing in a
   * non-Spanish table always falls back to the Spanish text when there is one.
   */
  lemma FallbackToSpanish(translations: map<string, Json>, lang: string, key: string, text: string,
                           fallback: Option<string>)
    requires lang != "es"
    requires Resolve(Table(translations, lang), Split(key)).None?
    requires Resolve(Table(translations, "es"), Split(key)) == Some(JStr(text))
    ensures Translate(translations, lang, lang, key, fallback) == text
  {
  }

  lemma FallbackToSpanishExample()
    ensures Translate(SpanishOnly(), "en", "en", "title", None) == "Hola"
  {
    assert Split("title") == ["title"];
    FallbackToSpanish(SpanishOnly(), "en", "title", "Hola", None);
  }

  // ---------------------------------------------------------------------
  // Subscribers

  predicate NoDuplicates(cbs: seq<nat>)
  {
    forall i, j :: 0 <= i < j < |cbs| ==> cbs[i] != cbs[j]
  }

  /** `list.remove(x)`: drops the first occurrence. */
  function RemoveFirst(cbs: seq<nat>, x: nat): (r: seq<nat>)
    ensures x in cbs ==> |r| == |cbs| - 1
    ensures x !in cbs ==> r == cbs
    ensures forall y :: y in r ==> y in cbs
    ensures forall y :: y in cbs && y != x ==> y in r
  {
    if cbs == [] then []
    else if cbs[0] == x then cbs[1..]
    else [cbs[0]] + RemoveFirst(cbs[1..], x)
  }

  lemma {:induction false} RemoveFirstDistinct(cbs: seq<nat>, x: nat)
    requires NoDuplicates(cbs)
    ensures NoDuplicates(RemoveFirst(cbs, x)) && x !in RemoveFirst(cbs, x)
    decreases |cbs|
  {
    if cbs != [] {
      assert NoDuplicates(cbs[1..]) by {
        forall i, j | 0 <= i < j < |cbs[1..]| ensures cbs[1..][i] != cbs[1..][j] {
          assert cbs[1..][i] == cbs[i + 1] && cbs[1..][j] == cbs[j + 1];
        }
      }
      if cbs[0] != x {
        RemoveFirstDistinct(cbs[1..], x);
        var r := RemoveFirst(cbs[1..], x);
        assert cbs[0] !in cbs[1..];
        assert cbs[0] !in r;
      } else {
        assert x !in cbs[1..];
      }
    }
  }

  /** The callbacks whose call raises, in notification order. */
  function Raising(cbs: seq<nat>, raises: set<nat>): (r: seq<nat>)
    ensures forall y :: y in r <==> y in cbs && y in raises
    decreases |cbs|
  {
    if cbs == [] then []
    else
      assert forall y :: y in cbs <==> y == cbs[0] || y in cbs[1..];
      (if cbs[0] in raises then [cbs[0]] else []) + Raising(cbs[1..], raises)
  }

  /**
   * `LanguageManager`. Besides its own `currentLanguage`, the object holds
   * `globalLanguage`, the module-level `CURRENT_LANGUAGE` every window reads;
   * the manager is a singleton, so one object carries both.
   */
  class Manager {
    var globalLanguage: string
    var currentLanguage: string
    var translations: map<string, Json>
    /** Callbacks, by identity. */
    var subscribers: seq<nat>

    /** First construction: both languages from the global, the three tables as loaded. */
    constructor(globalLanguage: string, translations: map<string, Json>)
      ensures this.globalLanguage == globalLanguage && currentLanguage == globalLanguage
      ensures this.translations == translations && subscribers == []
    {
      this.globalLanguage := globalLanguage;
      currentLanguage := globalLanguage;
      this.translations := translations;
      subscribers := [];
    }

    /**
     * `get`: walks the pieces of `key` through the current table; on the
     * first missing piece it walks the Spanish table, unless the manager's
     * own language is Spanish.
     */
    method Get(key: string, fallback: Option<string>) returns (text: string)
      ensures text == Translate(translations, globalLanguage, currentLanguage, key, fallback)
    {
      var keys := Split(key);
      var current := Table(translations, globalLanguage);
      var i := 0;
      while i < |keys|
        invariant 0 <= i <= |keys|
        invariant Resolve(Table(translations, globalLanguage), keys)
          == Resolve(current, keys[i..])
      {
        var next := if current.JDict? then Find(current.items, keys[i]) else None;
        if next.None? {
          if currentLanguage != "es" {
            var spanish := Table(translations, "es");
            var j := 0;
            var lost := false;
            while j < |keys| && !lost
              invariant 0 <= j <= |keys|
              invariant !lost ==> Resolve(Table(translations, "es"), keys) == Resolve(spanish, keys[j..])
              invariant lost ==> Resolve(Table(translations, "es"), keys).None?
              decreases |keys| - j, if lost then 0 else 1
            {
              var step := if spanish.JDict? then Find(spanish.items, keys[j]) else None;
              if step.None? {
                lost := true;
              } else {
                spanish := step.value;
                j := j + 1;
              }
            }
            if !lost {
              assert keys[|keys|..] == [];
            }
            if !lost && spanish.JStr? {
              return spanish.text;
            }
          }
          text := fallback.GetOr(Bracketed(key));
          return;
        }
        current := next.value;
        i := i + 1;
      }
      assert keys[|keys|..] == [];
      text := if current.JStr? then current.text else Bracketed(key);
    }

    /**
     * `set_language`: an unknown code raises ValueError; the code already
     * global changes nothing and tells nobody; any other code becomes
     * global and the manager's own, and every subscriber is called.
     */
    method SetLanguage(code: string, raises: set<nat>) returns (r: Result<(seq<nat>, seq<nat>)>)
      modifies this
      ensures code !in Available ==> r == Err("ValueError")
      ensures code in Available && code == old(globalLanguage) ==> r == Ok(([], []))
      ensures code in Available && code != old(globalLanguage) ==>
        r == Ok((subscribers, Raising(subscribers, raises)))
      ensures code in Available && code != old(globalLanguage) ==>
        globalLanguage == code && currentLanguage == code
      ensures !(code in Available && code != old(globalLanguage)) ==>
        globalLanguage == old(globalLanguage) && currentLanguage == old(currentLanguage)
      ensures translations == old(translations) && subscribers == old(subscribers)
    {
      if code !in Available {
        return Err("ValueError");
      }
      if globalLanguage == code {
        return Ok(([], []));
      }
      globalLanguage := code;
      currentLanguage := code;
      var called, failed := NotifySubscribers(raises);
      r := Ok((called, failed));
    }

    /**
     * `_notify_subscribers`: every callback is called in order; one that
     * raises is reported and the rest are still called.
     */
    method NotifySubscribers(raises: set<nat>) returns (called: seq<nat>, failed: seq<nat>)
      ensures called == subscribers
      ensures failed == Raising(subscribers, raises)
    {
      called := [];
      failed := [];
      for i := 0 to |subscribers|
        invariant called == subscribers[..i]
        invariant failed == Raising(subscribers[..i], raises)
      {
        RaisingAppend(subscribers[..i], subscribers[i], raises);
        assert subscribers[..i + 1] == subscribers[..i] + [subscribers[i]];
        called := called + [subscribers[i]];
        if subscribers[i] in raises {
          failed := failed + [subscribers[i]];
        }
      }
      assert subscribers[..|subscribers|] == subscribers;
    }

    /** `subscribe`: a callback already in the list is not added twice. */
    method Subscribe(cb: nat)
      modifies this
      ensures subscribers == if cb in old(subscribers) then old(subscribers) else old(subscribers) + [cb]
      ensures NoDuplicates(old(subscribers)) ==> NoDuplicates(subscribers)
      ensures globalLanguage == old(globalLanguage) && currentLanguage == old(currentLanguage)
      ensures translations == old(translations)
    {
      if cb !in subscribers {
        subscribers := subscribers + [cb];
      }
    }

    /** `unsubscribe`: removes the callback when it is there. */
    method Unsubscribe(cb: nat)
      modifies this
      ensures subscribers == RemoveFirst(old(subscribers), cb)
      ensures NoDuplicates(old(subscribers)) ==> NoDuplicates(subscribers) && cb !in subscribers
      ensures globalLanguage == old(globalLanguage) && currentLanguage == old(currentLanguage)
      ensures translations == old(translations)
    {
      if NoDuplicates(subscribers) {
        RemoveFirstDistinct(subscribers, cb);
      }
      if cb in subscribers {
        subscribers := RemoveFirst(subscribers, cb);
      }
    }

    /** `set_current_global_language`: the global changes, unchecked and unannounced; the manager's copy does not. */
    method SetCurrentGlobalLanguage(code: string)
      modifies this
      ensures globalLanguage == code && currentLanguage == old(currentLanguage)
      ensures translations == old(translations) && subscribers == old(subscribers)
    {
      globalLanguage := code;
    }
  }

  lemma RaisingAppend(cbs: seq<nat>, x: nat, raises: set<nat>)
    ensures Raising(cbs + [x], raises) == Raising(cbs, raises) + (if x in raises then [x] else [])
    decreases |cbs|
  {
    if cbs != [] {
      assert (cbs + [x])[1..] == cbs[1..] + [x];
      RaisingAppend(cbs[1..], x, raises);
    }
  }
}
