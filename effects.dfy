/**
 * The side effects of changing locale, kept in one ordered log: cookie
 * writes (js-cookie), `console.error` messages and the calls made to the
 * callbacks a caller supplies.
 */
module Effects {

  datatype Effect =
    | CookieWritten(locale: string)       // setLocaleCookie(locale)
    | ErrorLogged(message: string)        // console.error(message)
    | SetLocaleCalled(locale: string)     // the provider's `props.setLocale(locale)`
    | LocaleChangeCalled(locale: string)  // useLocale's `onLocaleChange(locale)`

  /** The message both setters log for a locale that is not available. */
  function NotAvailableMessage(locale: string): string
  {
    "Locale " + locale + " is not available"
  }

  /** Number of cookie writes in a log. */
  function CookieWrites(effects: seq<Effect>): nat
  {
    if effects == [] then 0
    else (if effects[0].CookieWritten? then 1 else 0) + CookieWrites(effects[1..])
  }

  lemma {:induction false} CookieWritesAppend(a: seq<Effect>, b: seq<Effect>)
    ensures CookieWrites(a + b) == CookieWrites(a) + CookieWrites(b)
  {
    if a != [] {
      assert (a + b)[1..] == a[1..] + b;
      CookieWritesAppend(a[1..], b);
    } else {
      assert a + b == b;
    }
  }

  /** Regrouping appended logs; used where a setter's effects are followed by the caller's own. */
  lemma AppendAssociative(a: seq<Effect>, b: seq<Effect>, c: seq<Effect>)
    ensures a + b + c == a + (b + c)
  {
  }

  /** The browser and console as seen by this package: an append-only log. */
  class EffectLog {
    var entries: seq<Effect>

    constructor ()
      ensures entries == []
    {
      entries := [];
    }

    method Append(e: Effect)
      modifies this
      ensures entries == old(entries) + [e]
    {
      entries := entries + [e];
    }
  }
}
