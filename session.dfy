/**
 * The client component's state and the handlers that change it step by
 * step: `generateDork`, `saveDork`, `deleteDork`, `loadDork` and
 * `toggleDarkMode`, with the mount effect that loads the saved dorks and
 * the dark-mode preference.
 *
 * The network is an input: each request either reaches the backend, in
 * which case the backend model answers it, or fails with an error message.
 * `prompt` and `confirm` answers are inputs too, and `encodeURIComponent`
 * is a function parameter.
 */
module Session {
  import opened Wrappers
  import opened Text
  import F = Form
  import Q = DorkQuery
  import S = DorkStore

  /** How a request to the backend goes: it reaches the server, or axios rejects with `reason`. */
  datatype Network = Up | Down(reason: string)

  const NoDomainMessage: string := "Lütfen bir domain girin"
  const GeneratedMessage: string := "Dork sorgusu başarıyla oluşturuldu!"
  const GenerateFailedPrefix: string := "Dork sorgusu oluşturulamadı: "
  const NoQueryMessage: string := "Önce bir dork sorgusu oluşturun"
  const SavedMessage: string := "Dork başarıyla kaydedildi!"
  const SaveFailedPrefix: string := "Dork kaydedilemedi: "
  const DeletedMessage: string := "Dork başarıyla silindi!"
  const DeleteFailedPrefix: string := "Dork silinemedi: "
  const LoadedMessage: string := "Dork yüklendi!"
  /** The message axios gives a rejected request when the server answers 404. */
  const NotFoundError: string := "Request failed with status code 404"

  /** The body `generateDork` posts: the form, field for field, as the backend binds it. */
  function ToRequest(f: F.FormData): (r: Q.DorkRequest)
    ensures r.domain == f.domain && r.keywords == f.keywords
    ensures Q.Selected(r, Q.FileTypes) == f.fileTypes && Q.Selected(r, Q.Vulnerability) == f.vulnerability
    ensures Q.Selected(r, Q.Cms) == f.cms && Q.Selected(r, Q.Auth) == f.auth && Q.Selected(r, Q.Errors) == f.errors
  {
    Q.DorkRequest(f.domain, f.keywords, f.fileTypes, f.vulnerability, f.cms, f.auth, f.errors)
  }

  /** The form field whose checkboxes list the tokens of category `c`. */
  function FieldOf(c: Q.Category): (field: F.Field)
    ensures field != F.Domain && field != F.Keywords
  {
    match c
    case FileTypes => F.FileTypes
    case Vulnerability => F.Vulnerability
    case Cms => F.Cms
    case Auth => F.Auth
    case Errors => F.Errors
  }

  /**
   * Ticking a box on the form adds that token to the request the form
   * posts, in that category and nowhere else.
   */
  lemma TickedBoxReachesRequest(f: F.FormData, c: Q.Category, token: string)
    ensures ToRequest(F.HandleArrayChange(f, FieldOf(c), token, true)) == Q.WithToken(ToRequest(f), c, token)
  {
    var g := F.HandleArrayChange(f, FieldOf(c), token, true);
    assert forall h :: h != FieldOf(c) ==> F.Get(g, h) == F.Get(f, h);
    assert F.Get(g, FieldOf(c)).items == F.Get(f, FieldOf(c)).items + [token];
    assert F.Get(g, F.Domain) == F.Get(f, F.Domain) && F.Get(g, F.Keywords) == F.Get(f, F.Keywords);
  }

  /**
   * Ticking a box for a token of the catalogue makes the next generated
   * query strictly longer: every offered checkbox does something.
   */
  lemma TickedCatalogueBoxLengthensQuery(f: F.FormData, c: Q.Category, token: string)
    requires token in Q.Catalogue(c)
    ensures |Q.Query(ToRequest(F.HandleArrayChange(f, FieldOf(c), token, true)))| > |Q.Query(ToRequest(f))|
  {
    TickedBoxReachesRequest(f, c, token);
    Q.CatalogueTokenLengthensQuery(ToRequest(f), c, token);
  }

  /** `newDarkMode.toString()`, the text stored under the `darkMode` key. */
  function BoolText(b: bool): string {
    if b then "true" else "false"
  }

  /** The component's state hooks. */
  class Client {
    var formData: F.FormData
    var generatedQuery: string
    var generatedURL: string
    var savedDorks: seq<S.SavedDork>
    var message: string
    var loading: bool
    var darkMode: bool

    /** The initial `useState` values. */
    constructor ()
      ensures formData == F.EmptyForm && generatedQuery == "" && generatedURL == ""
      ensures savedDorks == [] && message == "" && !loading && !darkMode
    {
      formData := F.EmptyForm;
      generatedQuery := "";
      generatedURL := "";
      savedDorks := [];
      message := "";
      loading := false;
      darkMode := false;
    }

    /**
     * The mount effect: the saved dorks are fetched, and dark mode is on
     * exactly when the stored text is `"true"` (`stored` is `None` when the
     * key is missing).
     */
    method Mount(store: S.Store, stored: Option<string>)
      modifies this`savedDorks, this`darkMode
      ensures savedDorks == store.dorks
      ensures darkMode == (stored == Some("true"))
    {
      savedDorks := store.dorks;
      darkMode := stored == Some("true");
    }

    /** `handleInputChange` applied to the form state. */
    method InputChange(field: F.Field, value: F.Value)
      requires F.Fits(field, value)
      modifies this`formData
      ensures formData == F.HandleInputChange(old(formData), field, value)
    {
      formData := F.HandleInputChange(formData, field, value);
    }

    /** `handleArrayChange` applied to the form state. */
    method ArrayChange(field: F.Field, value: string, checked: bool)
      requires field != F.Domain
      modifies this`formData
      ensures formData == F.HandleArrayChange(old(formData), field, value, checked)
    {
      formData := F.HandleArrayChange(formData, field, value, checked);
    }

    /** Typing `text` into the keyword field stores the keywords parsed from it. */
    method KeywordInput(text: string)
      modifies this`formData
      ensures formData == old(formData).(keywords := F.ParseKeywords(text))
      ensures forall i :: 0 <= i < |formData.keywords| ==> F.GoodKeyword(formData.keywords[i])
    {
      F.ParsedKeywordsAreGood(text);
      formData := F.HandleInputChange(formData, F.Keywords, F.Items(F.ParseKeywords(text)));
    }

    /**
     * `generateDork`: a domain that trims to nothing only sets a message;
     * otherwise the form is posted, and the answer (or the error) sets the
     * query, the URL and the message, with `loading` raised for the call
     * and lowered afterwards.
     */
    method GenerateDork(net: Network) returns (requested: bool)
      modifies this`generatedQuery, this`generatedURL, this`message, this`loading
      ensures requested == (Trim(formData.domain) != "")
      ensures !requested ==> message == NoDomainMessage && loading == old(loading)
      ensures !requested || net.Down? ==> generatedQuery == old(generatedQuery) && generatedURL == old(generatedURL)
      ensures requested ==> !loading
      ensures requested && net.Up? ==>
        && generatedQuery == Q.Query(ToRequest(formData))
        && generatedURL == Q.SearchURL(generatedQuery)
        && message == GeneratedMessage
      ensures requested && net.Down? ==> message == GenerateFailedPrefix + net.reason
    {
      if Trim(formData.domain) == "" {
        message := NoDomainMessage;
        return false;
      }
      loading := true;
      match net {
        case Up =>
          var query := Q.BuildDorkQuery(ToRequest(formData));
          generatedQuery := query;
          generatedURL := Q.SearchPrefix + query;
          message := GeneratedMessage;
        case Down(reason) =>
          message := GenerateFailedPrefix + reason;
      }
      loading := false;
      return true;
    }

    /**
     * `saveDork`: with no generated query only a message is set; a
     * cancelled or empty name ends it silently; otherwise the record is
     * posted (the backend gives it the next ID), the list is fetched again
     * and a message is set.
     */
    method SaveDork(store: S.Store, name: Option<string>, net: Network) returns (requested: bool)
      requires store.Valid()
      modifies this`savedDorks, this`message, store
      ensures store.Valid()
      ensures requested == (Trim(generatedQuery) != "" && name.Some? && name.value != "")
      ensures Trim(generatedQuery) == "" ==> message == NoQueryMessage
      ensures !requested || net.Down? ==>
        store.dorks == old(store.dorks) && store.nextID == old(store.nextID) && savedDorks == old(savedDorks)
      ensures requested && net.Up? ==>
        && store.dorks == old(store.dorks) + [S.SavedDork(old(store.nextID), name.value, generatedQuery, "Domain: " + formData.domain)]
        && store.nextID == old(store.nextID) + 1
        && savedDorks == store.dorks
        && message == SavedMessage
      ensures requested && net.Down? ==> message == SaveFailedPrefix + net.reason
      ensures Trim(generatedQuery) != "" && !requested ==> message == old(message)
    {
      if Trim(generatedQuery) == "" {
        message := NoQueryMessage;
        return false;
      }
      if name.None? || name.value == "" {
        return false;
      }
      match net {
        case Up =>
          var status, saved := S.SaveHandler(store, S.SavedDork(0, name.value, generatedQuery, "Domain: " + formData.domain));
          savedDorks := store.dorks;
          message := SavedMessage;
        case Down(reason) =>
          message := SaveFailedPrefix + reason;
      }
      return true;
    }

    /**
     * `deleteDork`: nothing happens unless the user confirms; then the
     * delete is sent, and a 200 refreshes the list while a 404 rejects the
     * call like any other error.
     */
    method DeleteDork(store: S.Store, id: int, confirmed: bool, net: Network) returns (requested: bool)
      requires store.Valid()
      modifies this`savedDorks, this`message, store
      ensures store.Valid()
      ensures requested == confirmed
      ensures !requested || net.Down? ==>
        store.dorks == old(store.dorks) && savedDorks == old(savedDorks)
      ensures !requested ==> message == old(message)
      ensures requested && net.Up? ==> store.dorks == S.Remove(old(store.dorks), id) && !S.HasId(store.dorks, id)
      ensures requested && net.Up? && S.HasId(old(store.dorks), id) ==>
        savedDorks == store.dorks && message == DeletedMessage
      ensures requested && net.Up? && !S.HasId(old(store.dorks), id) ==>
        savedDorks == old(savedDorks) && message == DeleteFailedPrefix + NotFoundError
      ensures requested && net.Down? ==> message == DeleteFailedPrefix + net.reason
      ensures store.nextID == old(store.nextID)
    {
      if !confirmed {
        return false;
      }
      match net {
        case Up =>
          var status := S.DeleteHandler(store, id);
          if status == 200 {
            savedDorks := store.dorks;
            message := DeletedMessage;
          } else {
            message := DeleteFailedPrefix + NotFoundError;
          }
        case Down(reason) =>
          message := DeleteFailedPrefix + reason;
      }
      return true;
    }

    /**
     * `loadDork`: the saved query becomes the generated one, with a URL
     * that, unlike the backend's, passes the query through `encode`.
     */
    method LoadDork(dork: S.SavedDork, encode: string -> string)
      modifies this`generatedQuery, this`generatedURL, this`message
      ensures generatedQuery == dork.query
      ensures generatedURL == Q.SearchPrefix + encode(dork.query)
      ensures message == LoadedMessage
    {
      generatedQuery := dork.query;
      generatedURL := Q.SearchPrefix + encode(dork.query);
      message := LoadedMessage;
    }

    /** `toggleDarkMode`: flip the flag and return the text stored for it. */
    method ToggleDarkMode() returns (stored: string)
      modifies this`darkMode
      ensures darkMode == !old(darkMode)
      ensures stored == BoolText(darkMode)
    {
      darkMode := !darkMode;
      stored := BoolText(darkMode);
    }
  }

  /**
   * A loaded dork's URL agrees with the one the backend builds for the same
   * query exactly when the encoder leaves that query unchanged.
   */
  lemma LoadedUrlMatchesBackend(query: string, encode: string -> string)
    ensures Q.SearchPrefix + encode(query) == Q.SearchURL(query) <==> encode(query) == query
  {
    var p := Q.SearchPrefix;
    if p + encode(query) == p + query {
      assert encode(query) == (p + encode(query))[|p|..];
      assert query == (p + query)[|p|..];
    }
  }
}
