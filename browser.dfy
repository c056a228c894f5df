/** The two browser globals the session logic writes: `localStorage`, a string to
    string key-value store, and `window.location`. */
module Browser {
  import opened Wrappers

  /** The keys the portal keeps in `localStorage`. */
  const TokenKey := "token"
  const RoleKey := "role"
  const UserKey := "user"
  /** Everything a logout or an invalidated session removes. */
  const SessionKeys: set<string> := {TokenKey, RoleKey, UserKey}

  /** What `getItem(key)` returns on a store holding `items`. */
  function ItemIn(items: map<string, string>, key: string): Option<string> {
    if key in items then Some(items[key]) else None
  }

  class LocalStorage {
    var items: map<string, string>

    constructor (initial: map<string, string>)
      ensures items == initial
    {
      items := initial;
    }

    /** `getItem(key)`: the stored string, or null. */
    function GetItem(key: string): (r: Option<string>)
      reads this
      ensures r.Some? <==> key in items
      ensures r.Some? ==> r.value == items[key]
    {
      ItemIn(items, key)
    }

    /** `setItem(key, value)`. */
    method SetItem(key: string, value: string)
      modifies this
      ensures items == old(items)[key := value]
    {
      items := items[key := value];
    }

    /** `removeItem(key)`; removing an absent key is a no-op. */
    method RemoveItem(key: string)
      modifies this
      ensures items == old(items) - {key}
    {
      items := items - {key};
    }
  }

  /** `window.location`, reduced to the `href` the gateway assigns. */
  class Window {
    var href: string

    constructor (href: string)
      ensures this.href == href
    {
      this.href := href;
    }
  }
}
