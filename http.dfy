/** The slice of an HTTP exchange the authentication layer reads and writes. */
module Http {
  import opened Wrappers

  const StatusOK: int := 200
  const StatusBadRequest: int := 400
  const StatusUnauthorized: int := 401

  const MethodPost: string := "POST"

  /**
   * The body of a login request as the login handler sees it. `Form` carries the
   * form fields with all their values, each under its name's upper-cased form
   * (the form collection compares names ignoring case); `Other` carries the content type, the
   * declared content length and, for a JSON body, the string-valued properties
   * of the top-level object (JSON parsing itself is not modelled).
   */
  datatype RequestBody =
    | Form(fields: FormFields)
    | Other(contentType: Option<string>, contentLength: Option<int>, jsonStrings: map<string, string>)

  // ---------------------------------------------------------------------------
  // Ordinal case-insensitive comparison

  /** Ordinal upper-casing of one character, over ASCII letters. */
  function ToUpperAscii(c: char): (r: char)
    ensures 'a' <= c <= 'z' ==> r as int == c as int - 32
    ensures !('a' <= c <= 'z') ==> r == c
  {
    if 'a' <= c <= 'z' then (c as int - 32) as char else c
  }

  /** A string upper-cased character by character. */
  function Upper(s: string): (r: string)
    ensures |r| == |s| && forall i :: 0 <= i < |s| ==> r[i] == ToUpperAscii(s[i])
  {
    seq(|s|, i requires 0 <= i < |s| => ToUpperAscii(s[i]))
  }

  /**
   * `StringComparison.OrdinalIgnoreCase`: the strings agree character by
   * character once upper-cased, which is the same as their upper-cased forms
   * being equal.
   */
  predicate EqualsIgnoreCase(a: string, b: string)
    ensures EqualsIgnoreCase(a, b) <==> Upper(a) == Upper(b)
  {
    |a| == |b| && forall i :: 0 <= i < |a| ==> ToUpperAscii(a[i]) == ToUpperAscii(b[i])
  }

  /** Case-insensitive equality is an equivalence: reflexive, symmetric and transitive. */
  lemma EqualsIgnoreCaseIsEquivalence(a: string, b: string, c: string)
    ensures EqualsIgnoreCase(a, a)
    ensures EqualsIgnoreCase(a, b) ==> EqualsIgnoreCase(b, a)
    ensures EqualsIgnoreCase(a, b) && EqualsIgnoreCase(b, c) ==> EqualsIgnoreCase(a, c)
  {
  }

  // ---------------------------------------------------------------------------
  // Headers

  /** Upper-casing twice is upper-casing once. */
  lemma UpperIdempotent(s: string)
    ensures Upper(Upper(s)) == Upper(s)
  {
    forall i | 0 <= i < |s| ensures ToUpperAscii(ToUpperAscii(s[i])) == ToUpperAscii(s[i]) { }
  }

  /**
   * A header collection (`IHeaderDictionary`). Header names are compared
   * ignoring case, so each entry is held under its name's upper-cased form and
   * has one value.
   */
  type Headers = h: map<string, string> | forall k :: k in h ==> Upper(k) == k witness map[]

  /** `ContainsKey`: some entry's name equals `name` ignoring case. */
  predicate HasHeader(h: Headers, name: string)
    ensures HasHeader(h, name) <==> exists k :: k in h && EqualsIgnoreCase(k, name)
  {
    UpperIdempotent(name);
    Upper(name) in h
  }

  /** The indexer's getter: the value of the entry named `name` ignoring case, null when there is none. */
  function GetHeader(h: Headers, name: string): (r: Option<string>)
    ensures r.Some? <==> HasHeader(h, name)
    ensures r.Some? ==> forall k :: k in h && EqualsIgnoreCase(k, name) ==> r.value == h[k]
  {
    if Upper(name) in h then Some(h[Upper(name)]) else None
  }

  /** The indexer's setter: replaces the entry named `name` ignoring case, whatever its spelling. */
  function SetHeader(h: Headers, name: string, value: string): (r: Headers)
    ensures forall n :: EqualsIgnoreCase(n, name) ==> GetHeader(r, n) == Some(value)
    ensures forall n :: !EqualsIgnoreCase(n, name) ==> GetHeader(r, n) == GetHeader(h, n)
  {
    UpperIdempotent(name);
    h[Upper(name) := value]
  }

  /**
   * A form collection (`IFormCollection`): like headers, field names are
   * compared ignoring case and each field is held under its upper-cased name,
   * here with all its values.
   */
  type FormFields = f: map<string, seq<string>> | forall k :: k in f ==> Upper(k) == k witness map[]

  /** `TryGetValue` on the form: the values of the field named `name` ignoring case, if any. */
  function FormValues(f: FormFields, name: string): (r: Option<seq<string>>)
    ensures r.Some? <==> exists k :: k in f && EqualsIgnoreCase(k, name)
    ensures r.Some? ==> forall k :: k in f && EqualsIgnoreCase(k, name) ==> r.value == f[k]
  {
    UpperIdempotent(name);
    if Upper(name) in f then Some(f[Upper(name)]) else None
  }

  /** An incoming request: method, headers and body. */
  datatype Request = Request(httpMethod: string, headers: Headers, body: RequestBody)

  /** The response being built: status code, headers, and whether the body has been written. */
  datatype Response = Response(status: int, headers: Headers, bodyWritten: bool)

  /** A response nobody has touched yet. */
  function FreshResponse(): (r: Response)
    ensures r.status == StatusOK && r.headers == map[] && !r.bodyWritten
  {
    Response(StatusOK, map[], false)
  }

  /** `response.WriteAsync("")`: starts the (empty) body; status and headers stay as they are. */
  function WriteEmptyBody(r: Response): (r': Response)
    ensures r'.bodyWritten && r'.status == r.status && r'.headers == r.headers
  {
    r.(bodyWritten := true)
  }

  /** Sets the status code, leaving everything else alone. */
  function WithStatus(r: Response, status: int): (r': Response)
    ensures r'.status == status && r'.headers == r.headers && r'.bodyWritten == r.bodyWritten
  {
    r.(status := status)
  }
}
