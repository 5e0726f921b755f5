/** The parts of the browser the frontend reads and writes: the page's host
    name, the `localStorage` key-value store, and the navigations it starts
    (`window.location.reload()` and assignments to `window.location.href`),
    recorded as an abstract log since what the browser then loads is outside
    the model. */
module Browser {
  import opened Wrappers

  datatype Navigation = Reload | Assign(href: string)

  /** `localStorage.getItem(key)`: the stored string, or null. */
  function GetItem(storage: map<string, string>, key: string): (r: Option<string>)
    ensures r.Some? <==> key in storage
    ensures r.Some? ==> r.value == storage[key]
  {
    if key in storage then Some(storage[key]) else None
  }

  class Window {
    const hostname: string
    var storage: map<string, string>
    var navigations: seq<Navigation>

    constructor (hostname: string, storage: map<string, string>)
      ensures this.hostname == hostname && this.storage == storage && navigations == []
    {
      this.hostname := hostname;
      this.storage := storage;
      navigations := [];
    }

    /** `localStorage.setItem(key, value)`. */
    method SetItem(key: string, value: string)
      modifies this
      ensures storage == old(storage)[key := value]
      ensures navigations == old(navigations)
    {
      storage := storage[key := value];
    }

    /** `localStorage.removeItem(key)`. */
    method RemoveItem(key: string)
      modifies this
      ensures storage == old(storage) - {key}
      ensures navigations == old(navigations)
    {
      storage := storage - {key};
    }

    /** `window.location.reload()` or `window.location.href = url`. */
    method Navigate(n: Navigation)
      modifies this
      ensures navigations == old(navigations) + [n]
      ensures storage == old(storage)
    {
      navigations := navigations + [n];
    }
  }
}
