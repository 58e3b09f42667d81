/**
 * The browser's localStorage as the form builder uses it: every value it
 * keeps there is a JSON-serialised list of strings, so an entry is either
 * such a list or text that fails to parse.
 */
module Storage {

  datatype Stored = Json(list: seq<string>) | Unparsable

  /** The list under `key`; a missing key or a value that fails to parse reads as `[]`. */
  function ReadList(items: map<string, Stored>, key: string): (r: seq<string>)
    ensures key in items && items[key].Json? ==> r == items[key].list
    ensures key !in items || items[key].Unparsable? ==> r == []
  {
    if key in items && items[key].Json? then items[key].list else []
  }

  class LocalStorage {
    var items: map<string, Stored>

    constructor (initial: map<string, Stored>)
      ensures items == initial
    {
      items := initial;
    }

    /** `JSON.parse(localStorage.getItem(key))` with the source's fallback to `[]`. */
    function GetList(key: string): seq<string>
      reads this
    {
      ReadList(items, key)
    }

    /** `localStorage.setItem(key, JSON.stringify(list))`. */
    method SetList(key: string, list: seq<string>)
      modifies this
      ensures items == old(items)[key := Json(list)]
    {
      items := items[key := Json(list)];
    }

    /** `localStorage.removeItem(key)`. */
    method RemoveItem(key: string)
      modifies this
      ensures items == old(items) - {key}
    {
      items := items - {key};
    }
  }
}
