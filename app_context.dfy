/**
 * The client's application context: theme, language and admin session,
 * persisted in the browser's `localStorage` and mirrored on the document's
 * root element (`data-theme`, `dir`, `lang`). Both are modelled as maps the
 * methods update; the environment defaults are parameters of the mount step.
 */
module AppContext {
  import opened Common

  const ThemeKey := "theme"
  const LanguageKey := "language"
  const TokenKey := "adminToken"
  const AdminKey := "adminData"

  /** `theme === 'light' ? 'dark' : 'light'`. */
  function NextTheme(theme: string): (r: string)
    ensures r == "dark" <==> theme == "light"
    ensures r == "light" <==> theme != "light"
  {
    if theme == "light" then "dark" else "light"
  }

  /** `language === 'ar' ? 'en' : 'ar'`. */
  function NextLanguage(language: string): (r: string)
    ensures r == "en" <==> language == "ar"
    ensures r == "ar" <==> language != "ar"
  {
    if language == "ar" then "en" else "ar"
  }

  /** The `dir` attribute: right-to-left exactly for Arabic. */
  function Direction(language: string): (r: string)
    ensures r == "rtl" <==> language == "ar"
    ensures r == "ltr" <==> language != "ar"
  {
    if language == "ar" then "rtl" else "ltr"
  }

  /** Toggling twice returns to a known theme; any other value settles on `light` after one toggle. */
  lemma ThemeToggleTwice(theme: string)
    ensures theme == "light" || theme == "dark" ==> NextTheme(NextTheme(theme)) == theme
    ensures theme != "light" && theme != "dark" ==> NextTheme(NextTheme(theme)) == "dark"
  {
  }

  lemma LanguageToggleTwice(language: string)
    ensures language == "ar" || language == "en" ==> NextLanguage(NextLanguage(language)) == language
    ensures language != "ar" && language != "en" ==> NextLanguage(NextLanguage(language)) == "en"
  {
  }

  /** `stored || env || fallback` on the mount step. */
  function Preferred(stored: Option<string>, env: Option<string>, fallback: string): (r: string)
    ensures Present(stored) ==> r == stored.value
    ensures !Present(stored) && Present(env) ==> r == env.value
    ensures !Present(stored) && !Present(env) ==> r == fallback
  {
    OrElse(OrElse(stored, env), Some(fallback)).value
  }

  class AppState {
    var theme: string
    var language: string
    var isAdmin: bool
    /** The admin object; `JSON.stringify` and `JSON.parse` are taken as inverse, so it is kept as its stored text. */
    var adminData: Option<string>
    var storage: map<string, string>
    var attributes: map<string, string>

    /** The root element shows the current theme and language. */
    ghost predicate Rendered()
      reads this
    {
      && Lookup(attributes, "data-theme") == Some(theme)
      && Lookup(attributes, "dir") == Some(Direction(language))
      && Lookup(attributes, "lang") == Some(language)
    }

    /** A session in memory is a session in storage: the flag, the data and both keys agree. */
    ghost predicate SessionStored()
      reads this
    {
      && (isAdmin <==> adminData.Some?)
      && (isAdmin ==> TokenKey in storage && Lookup(storage, AdminKey) == adminData)
    }

    /** The `useState` initial values; `storage` is what the browser already holds. */
    constructor (storage: map<string, string>)
      ensures theme == "light" && language == "ar" && !isAdmin && adminData == None
      ensures this.storage == storage && attributes == map[]
      ensures SessionStored()
    {
      theme, language := "light", "ar";
      isAdmin, adminData := false, None;
      this.storage, attributes := storage, map[];
    }

    /**
     * The mount effect: read the saved theme and language (falling back to
     * the environment's defaults, then to `light` and `ar`), render them, and
     * restore the session when both session keys hold a non-empty value.
     */
    method Mount(envTheme: Option<string>, envLanguage: Option<string>)
      requires SessionStored()
      modifies this`theme, this`language, this`isAdmin, this`adminData, this`attributes
      ensures theme == Preferred(Lookup(storage, ThemeKey), envTheme, "light")
      ensures language == Preferred(Lookup(storage, LanguageKey), envLanguage, "ar")
      ensures Rendered() && SessionStored()
      ensures Present(Lookup(storage, TokenKey)) && Present(Lookup(storage, AdminKey)) ==>
        isAdmin && adminData == Lookup(storage, AdminKey)
      ensures !(Present(Lookup(storage, TokenKey)) && Present(Lookup(storage, AdminKey))) ==>
        isAdmin == old(isAdmin) && adminData == old(adminData)
    {
      var savedTheme := Preferred(Lookup(storage, ThemeKey), envTheme, "light");
      var savedLanguage := Preferred(Lookup(storage, LanguageKey), envLanguage, "ar");
      theme := savedTheme;
      language := savedLanguage;
      attributes := attributes["data-theme" := savedTheme];
      attributes := attributes["dir" := Direction(savedLanguage)];
      attributes := attributes["lang" := savedLanguage];
      var token := Lookup(storage, TokenKey);
      var admin := Lookup(storage, AdminKey);
      if Present(token) && Present(admin) {
        isAdmin := true;
        adminData := admin;
      }
    }

    method ToggleTheme()
      requires Rendered() && SessionStored()
      modifies this`theme, this`storage, this`attributes
      ensures theme == NextTheme(old(theme))
      ensures storage == old(storage)[ThemeKey := theme]
      ensures attributes == old(attributes)["data-theme" := theme]
      ensures Rendered() && SessionStored()
    {
      var newTheme := NextTheme(theme);
      theme := newTheme;
      storage := storage[ThemeKey := newTheme];
      attributes := attributes["data-theme" := newTheme];
    }

    method ToggleLanguage()
      requires Rendered() && SessionStored()
      modifies this`language, this`storage, this`attributes
      ensures language == NextLanguage(old(language))
      ensures storage == old(storage)[LanguageKey := language]
      ensures attributes == old(attributes)["dir" := Direction(language)]["lang" := language]
      ensures Lookup(attributes, "dir") == Some("rtl") <==> language == "ar"
      ensures Rendered() && SessionStored()
    {
      var newLanguage := NextLanguage(language);
      language := newLanguage;
      storage := storage[LanguageKey := newLanguage];
      attributes := attributes["dir" := Direction(newLanguage)];
      attributes := attributes["lang" := newLanguage];
    }

    /** `login(token, admin)`: store both session keys and enter the admin session. */
    method Login(token: string, admin: string)
      modifies this`storage, this`isAdmin, this`adminData
      ensures storage == old(storage)[TokenKey := token][AdminKey := admin]
      ensures isAdmin && adminData == Some(admin)
      ensures SessionStored()
    {
      storage := storage[TokenKey := token];
      storage := storage[AdminKey := admin];
      isAdmin := true;
      adminData := Some(admin);
    }

    /** `logout()`: remove both session keys and leave the admin session. */
    method Logout()
      modifies this`storage, this`isAdmin, this`adminData
      ensures storage == old(storage) - {TokenKey, AdminKey}
      ensures TokenKey !in storage && AdminKey !in storage
      ensures !isAdmin && adminData == None
      ensures SessionStored()
    {
      storage := storage - {TokenKey, AdminKey};
      isAdmin := false;
      adminData := None;
    }

    /** `t(ar, en)`: the Arabic text exactly when the language is Arabic. */
    function T(ar: string, en: string): (r: string)
      reads this
      ensures language == "ar" ==> r == ar
      ensures language != "ar" ==> r == en
    {
      if language == "ar" then ar else en
    }
  }

  /** A logout after a login leaves no session key behind, whatever was stored before. */
  lemma LogoutUndoesLogin(storage: map<string, string>, token: string, admin: string)
    ensures storage[TokenKey := token][AdminKey := admin] - {TokenKey, AdminKey} == storage - {TokenKey, AdminKey}
  {
  }
}
