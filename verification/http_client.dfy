/** frontend/src/api/httpClient.ts: the base URL normalisation of `HttpClient` and the
    query-string building of `get`. The request itself (`new URL`, `fetch`, the response) is
    not modelled; `Get` answers with the pieces it would hand to `fetch`. */
module HttpClient {
  import opened Wrappers
  import opened Seqs
  import opened PyText

  /** `s.replace(/\/+$/, "")`: the run of '/' at the end of `s` removed. */
  function StripTrailingSlashes(s: string): (r: string)
    ensures |r| <= |s| && r == s[..|r|]
    ensures |r| == 0 || r[|r| - 1] != '/'
    ensures forall i :: |r| <= i < |s| ==> s[i] == '/'
    decreases |s|
  {
    if |s| > 0 && s[|s| - 1] == '/' then StripTrailingSlashes(s[..|s| - 1]) else s
  }

  /** Stripping twice is stripping once, and a string not ending in '/' is left alone. */
  lemma StripIdempotent(s: string)
    ensures StripTrailingSlashes(StripTrailingSlashes(s)) == StripTrailingSlashes(s)
    ensures (|s| == 0 || s[|s| - 1] != '/') ==> StripTrailingSlashes(s) == s
  {
  }

  /** Only the trailing run is removed: any prefix followed by slashes strips back to the
      prefix's own stripped form. */
  lemma {:induction false} StripAfterSlashes(s: string, n: nat)
    ensures StripTrailingSlashes(s + seq(n, _ => '/')) == StripTrailingSlashes(s)
    decreases n
  {
    var t := s + seq(n, _ => '/');
    if n > 0 {
      assert t[..|t| - 1] == s + seq(n - 1, _ => '/');
      StripAfterSlashes(s, n - 1);
    } else {
      assert t == s;
    }
  }

  /** A value of the `query` record: `string | number | boolean | undefined`, and `null`, which
      the loop also tests for. Numbers are integers here. */
  datatype QueryValue = Str(s: string) | Num(n: int) | Bool(b: bool) | Undefined | Null

  /** `value !== undefined && value !== null`. */
  predicate Present(v: QueryValue)
  {
    !v.Undefined? && !v.Null?
  }

  /** `String(value)`. */
  function JsString(v: QueryValue): (s: string)
    ensures v.Num? && v.n >= 0 ==> IsDigitString(s) && DigitsValue(s) == v.n
  {
    match v
    case Str(s) => s
    case Num(n) =>
      DigitsRoundTrip(if n >= 0 then n else -n);
      if n >= 0 then NatToDigits(n) else "-" + NatToDigits(-n)
    case Bool(b) => if b then "true" else "false"
    case Undefined => "undefined"
    case Null => "null"
  }

  type Entry = (string, QueryValue)

  /** The search parameters appended by the `forEach` over `Object.entries(query)`. */
  function QueryParams(entries: seq<Entry>): seq<(string, string)>
    decreases |entries|
  {
    if |entries| == 0 then []
    else
      var last := entries[|entries| - 1];
      QueryParams(entries[..|entries| - 1]) + (if Present(last.1) then [(last.0, JsString(last.1))] else [])
  }

  function EntryPresent(e: Entry): bool
  {
    Present(e.1)
  }

  /** The entries that are kept, each rendered as (key, String(value)). */
  function Rendered(entries: seq<Entry>): (r: seq<(string, string)>)
    ensures |r| == |entries|
  {
    seq(|entries|, i requires 0 <= i < |entries| => (entries[i].0, JsString(entries[i].1)))
  }

  /** Undefined and null values are skipped; every other entry is appended exactly once, in entry
      order, as (key, String(value)). */
  lemma {:induction false} QueryParamsKeepsPresent(entries: seq<Entry>)
    ensures QueryParams(entries) == Rendered(Filter(entries, EntryPresent))
    decreases |entries|
  {
    if |entries| > 0 {
      var init := entries[..|entries| - 1];
      var last := entries[|entries| - 1];
      QueryParamsKeepsPresent(init);
      var f := Filter(init, EntryPresent);
      if Present(last.1) {
        assert Rendered(f + [last]) == Rendered(f) + [(last.0, JsString(last.1))];
      } else {
        assert Filter(entries, EntryPresent) == f;
      }
    }
  }

  /** The parameters of a concatenation of records are those of each, in order. */
  lemma {:induction false} QueryParamsAppend(a: seq<Entry>, b: seq<Entry>)
    ensures QueryParams(a + b) == QueryParams(a) + QueryParams(b)
    decreases |b|
  {
    if |b| == 0 {
      assert a + b == a;
    } else {
      var b' := b[..|b| - 1];
      assert (a + b)[..|a + b| - 1] == a + b';
      assert (a + b)[|a + b| - 1] == b[|b| - 1];
      QueryParamsAppend(a, b');
    }
  }

  /** A record with no present values adds no parameters. */
  lemma {:induction false} QueryParamsAllAbsent(entries: seq<Entry>)
    requires forall i :: 0 <= i < |entries| ==> !Present(entries[i].1)
    ensures QueryParams(entries) == []
    decreases |entries|
  {
    if |entries| > 0 {
      QueryParamsAllAbsent(entries[..|entries| - 1]);
    }
  }

  /** `process.env.EXPO_PUBLIC_API_URL ?? "http://127.0.0.1:8000"`, the base of `apiClient`. */
  function ApiBaseUrl(envUrl: Option<string>): (u: string)
    ensures envUrl.Some? ==> u == envUrl.value
    ensures envUrl.None? ==> u == "http://127.0.0.1:8000"
  {
    GetOr(envUrl, "http://127.0.0.1:8000")
  }

  /** What `get` hands on: the base and path `new URL` resolves, and the search parameters. */
  datatype Request = Request(baseUrl: string, path: string, searchParams: seq<(string, string)>)

  class HttpClient {
    var baseUrl: string

    /** The base URL never ends with '/'. */
    ghost predicate Valid()
      reads this
    {
      |baseUrl| == 0 || baseUrl[|baseUrl| - 1] != '/'
    }

    /** `new HttpClient({ baseUrl })`. */
    constructor (configBaseUrl: string)
      ensures Valid()
      ensures baseUrl == StripTrailingSlashes(configBaseUrl)
    {
      baseUrl := StripTrailingSlashes(configBaseUrl);
    }

    /** `get(path, query)` up to the `fetch`: with no query nothing is appended, otherwise the
        present entries in order. */
    method Get(path: string, query: Option<seq<Entry>> := None) returns (req: Request)
      requires Valid()
      ensures req.baseUrl == baseUrl && req.path == path
      ensures |req.baseUrl| == 0 || req.baseUrl[|req.baseUrl| - 1] != '/'
      ensures query.None? ==> req.searchParams == []
      ensures query.Some? ==> req.searchParams == QueryParams(query.value)
    {
      var params: seq<(string, string)> := [];
      if query.Some? {
        var entries := query.value;
        for i := 0 to |entries|
          invariant params == QueryParams(entries[..i])
        {
          assert entries[..i + 1][..i] == entries[..i];
          var (key, value) := entries[i];
          if !value.Undefined? && !value.Null? {
            params := params + [(key, JsString(value))];
          }
        }
        assert entries[..|entries|] == entries;
      }
      req := Request(baseUrl, path, params);
    }
  }
}
