/**
 * The JSON Schema of a service declaration history file (`<service>.history.json`): an object
 * keyed by document type, each value a list of past declarations, each of which is a
 * single-page, a multi-page or a PDF declaration — exactly one of the three.
 *
 * The shared definitions the schema refers to (`location`, `contentSelectors`, `filters`,
 * `noiseSelectors`, `executeClientScripts`, `validUntil`) and the `date-time` format are
 * parameters: `Definitions` holds them as predicates.
 */
module HistorySchema {

  /** A JSON value; an object maps each of its keys to a value. */
  datatype Json =
    | JNull
    | JBool(b: bool)
    | JNumber(n: int)
    | JString(s: string)
    | JArray(items: seq<Json>)
    | JObject(members: map<string, Json>)

  /** The definitions shared with the declaration schema, and the `date-time` string format. */
  datatype Definitions = Definitions(
    location: Json -> bool,
    contentSelectors: Json -> bool,
    filters: Json -> bool,
    noiseSelectors: Json -> bool,
    executeClientScripts: Json -> bool,
    validUntil: Json -> bool,
    dateTime: string -> bool)

  /** The three kinds of declaration an entry of a history may be. */
  datatype Shape = SinglePage | MultiPage | Pdf

  /** The schema of one document type's history: an array whose items match exactly one of `shapes`. */
  datatype PropertySchema = ArrayOfOneOf(shapes: seq<Shape>)

  const ItemShapes: seq<Shape> := [SinglePage, MultiPage, Pdf]

  const PdfKeys: set<string> := {"fetch", "validUntil"}
  const PageKeys: set<string> := {"fetch", "select", "filter", "remove", "executeClientScripts"}
  const SinglePageKeys: set<string> := PageKeys + {"validUntil"}
  const MultiPageKeys: set<string> := {"combine", "select", "filter", "remove", "executeClientScripts", "validUntil"}

  /** `documentsProperties()`: one array-of-declarations property per document type name. */
  function DocumentsProperties(types: seq<string>): (r: map<string, PropertySchema>)
    ensures r.Keys == set t | t in types
    ensures forall t :: t in r ==> r[t] == ArrayOfOneOf(ItemShapes)
    decreases |types|
  {
    if types == [] then map[]
    else DocumentsProperties(types[..|types| - 1])[types[|types| - 1] := ArrayOfOneOf(ItemShapes)]
  }

  /** A JSON object whose keys are all in `allowed` and include all of `required`. */
  predicate ObjectWith(v: Json, allowed: set<string>, required: set<string>) {
    v.JObject? && v.members.Keys <= allowed && required <= v.members.Keys
  }

  /** The shared definition a declaration property refers to; other keys are unconstrained. */
  function Reference(defs: Definitions, key: string): Json -> bool {
    match key
    case "fetch" => defs.location
    case "select" => defs.contentSelectors
    case "filter" => defs.filters
    case "remove" => defs.noiseSelectors
    case "executeClientScripts" => defs.executeClientScripts
    case "validUntil" => defs.validUntil
    case _ => (v: Json) => true
  }

  /** Every present property among `keys` satisfies the definition it refers to. */
  predicate PropertiesMatch(defs: Definitions, members: map<string, Json>, keys: set<string>) {
    forall k :: k in members && k in keys ==> Reference(defs, k)(members[k])
  }

  /** A page of a multi-page declaration: `fetch` required, page properties only. */
  predicate PageItem(defs: Definitions, v: Json) {
    ObjectWith(v, PageKeys, {"fetch"}) && PropertiesMatch(defs, v.members, PageKeys)
  }

  /** The `combine` list of a multi-page declaration. */
  predicate CombineList(defs: Definitions, v: Json) {
    v.JArray? && forall i :: 0 <= i < |v.items| ==> PageItem(defs, v.items[i])
  }

  /** A string value of the `date-time` format. */
  predicate DateTimeString(defs: Definitions, v: Json) {
    v.JString? && defs.dateTime(v.s)
  }

  /** A string value matching the PDF URL pattern. */
  predicate PdfFetch(v: Json) {
    v.JString? && PdfUrl(v.s)
  }

  /** Whether `v` satisfies the definition of one declaration shape. */
  predicate MatchesShape(defs: Definitions, shape: Shape, v: Json) {
    match shape
    case SinglePage =>
      ObjectWith(v, SinglePageKeys, {"fetch", "validUntil"}) && PropertiesMatch(defs, v.members, SinglePageKeys)
    case MultiPage =>
      && ObjectWith(v, MultiPageKeys, {"combine"})
      && CombineList(defs, v.members["combine"])
      && PropertiesMatch(defs, v.members, MultiPageKeys - {"combine"})
    case Pdf =>
      && ObjectWith(v, PdfKeys, PdfKeys)
      && PdfFetch(v.members["fetch"])
      && DateTimeString(defs, v.members["validUntil"])
  }

  /** How many of `shapes` `v` matches. */
  function CountMatching(defs: Definitions, shapes: seq<Shape>, v: Json): (n: nat)
    ensures n <= |shapes|
    ensures n == 0 <==> forall i :: 0 <= i < |shapes| ==> !MatchesShape(defs, shapes[i], v)
    decreases |shapes|
  {
    if shapes == [] then 0
    else (if MatchesShape(defs, shapes[0], v) then 1 else 0) + CountMatching(defs, shapes[1..], v)
  }

  /** JSON Schema `oneOf`: exactly one of the shapes matches. */
  predicate OneOf(defs: Definitions, shapes: seq<Shape>, v: Json) {
    CountMatching(defs, shapes, v) == 1
  }

  /** A value satisfies a property's schema: an array of items each matching exactly one shape. */
  predicate MatchesProperty(defs: Definitions, schema: PropertySchema, v: Json) {
    v.JArray? && forall i :: 0 <= i < |v.items| ==> OneOf(defs, schema.shapes, v.items[i])
  }

  /**
   * The whole schema: an object (`type: 'object'`), no property beyond the document types
   * (`additionalProperties: false`), property names among the document types
   * (`propertyNames.enum`), and each property matching its schema.
   */
  predicate ValidHistory(defs: Definitions, types: seq<string>, v: Json) {
    var properties := DocumentsProperties(types);
    && v.JObject?
    && (forall k :: k in v.members ==> k in properties)
    && (forall k :: k in v.members ==> k in types)
    && (forall k :: k in v.members && k in properties ==> MatchesProperty(defs, properties[k], v.members[k]))
  }

  /** A declaration of a history: matches exactly one of the three shapes. */
  predicate ValidItem(defs: Definitions, v: Json) {
    OneOf(defs, ItemShapes, v)
  }

  /** A multi-page declaration has `combine`, which the other two shapes do not allow, and lacks `fetch`, which they require. */
  lemma MultiPageExcludesOthers(defs: Definitions, v: Json)
    requires MatchesShape(defs, MultiPage, v)
    ensures !MatchesShape(defs, SinglePage, v) && !MatchesShape(defs, Pdf, v)
  {
    assert "combine" in v.members.Keys;
    assert "combine" !in SinglePageKeys && "combine" !in PdfKeys;
  }

  /**
   * A history entry is accepted exactly when it is a multi-page declaration, or one of a
   * PDF and a single-page declaration but not both.
   */
  lemma ValidItemIff(defs: Definitions, v: Json)
    ensures ValidItem(defs, v) <==>
      MatchesShape(defs, MultiPage, v) || (MatchesShape(defs, Pdf, v) != MatchesShape(defs, SinglePage, v))
  {
    var single, multi, pdf := MatchesShape(defs, SinglePage, v), MatchesShape(defs, MultiPage, v), MatchesShape(defs, Pdf, v);
    assert ItemShapes[1..][1..][1..] == [];
    assert CountMatching(defs, ItemShapes, v) ==
      (if single then 1 else 0) + (if multi then 1 else 0) + (if pdf then 1 else 0);
    if multi {
      MultiPageExcludesOthers(defs, v);
    }
  }

  /**
   * A PDF declaration whose URL is also a valid `location` and whose date is also a valid
   * `validUntil` matches the single-page shape as well, so `oneOf` rejects it.
   */
  lemma PdfThatIsAlsoSinglePageRejected(defs: Definitions, v: Json)
    requires MatchesShape(defs, Pdf, v)
    requires defs.location(v.members["fetch"]) && defs.validUntil(v.members["validUntil"])
    ensures MatchesShape(defs, SinglePage, v)
    ensures !ValidItem(defs, v)
  {
    forall k | k in v.members && k in SinglePageKeys ensures Reference(defs, k)(v.members[k]) {
      assert k == "fetch" || k == "validUntil";
    }
    ValidItemIff(defs, v);
  }

  /** A PDF declaration has exactly the keys `fetch` and `validUntil`, and is accepted unless it is also a single-page one. */
  lemma PdfDeclaration(defs: Definitions, v: Json)
    requires MatchesShape(defs, Pdf, v)
    ensures v.members.Keys == PdfKeys
    ensures ValidItem(defs, v) <==> !MatchesShape(defs, SinglePage, v)
  {
    ValidItemIff(defs, v);
    if MatchesShape(defs, MultiPage, v) {
      MultiPageExcludesOthers(defs, v);
    }
  }

  /**
   * A history is accepted exactly when it is an object whose keys are document types and
   * whose values are arrays of accepted declarations.
   */
  lemma ValidHistoryIff(defs: Definitions, types: seq<string>, v: Json)
    ensures ValidHistory(defs, types, v) <==>
      && v.JObject?
      && forall k :: k in v.members ==>
           && k in types
           && v.members[k].JArray?
           && forall i :: 0 <= i < |v.members[k].items| ==> ValidItem(defs, v.members[k].items[i])
  {
    var properties := DocumentsProperties(types);
    if v.JObject? {
      forall k | k in v.members && k in types ensures k in properties && properties[k] == ArrayOfOneOf(ItemShapes) {
        assert k in set t | t in types;
      }
    }
  }

  /** A key that is not a document type makes the whole history invalid. */
  lemma UnknownKeyRejected(defs: Definitions, types: seq<string>, v: Json, key: string)
    requires v.JObject? && key in v.members && key !in types
    ensures !ValidHistory(defs, types, v)
  {
    ValidHistoryIff(defs, types, v);
  }

  /** The two key constraints of the top level agree: the properties are exactly the document types. */
  lemma PropertyNamesMatchProperties(types: seq<string>, key: string)
    ensures key in DocumentsProperties(types) <==> key in types
  {
    assert key in types <==> key in set t | t in types;
  }

  // ---------------------------------------------------------------------------------------
  // The PDF URL pattern `^https?://.+.[pP][dD][fF](\?.+)?$` (JavaScript regular expression).

  /** A character JavaScript's `.` matches: anything but a line terminator. */
  predicate NotLineTerminator(c: char) {
    c != '\n' && c != '\r' && c != '\U{2028}' && c != '\U{2029}'
  }

  /** A string `.*` matches. */
  predicate NoLineTerminator(s: string) {
    forall i :: 0 <= i < |s| ==> NotLineTerminator(s[i])
  }

  /** `[pP][dD][fF]`. */
  predicate PdfLetters(s: string) {
    |s| == 3 && (s[0] == 'p' || s[0] == 'P') && (s[1] == 'd' || s[1] == 'D') && (s[2] == 'f' || s[2] == 'F')
  }

  /** `(\?.+)?`: nothing, or a question mark followed by at least one character. */
  predicate Query(q: string) {
    q == "" || (|q| >= 2 && q[0] == '?' && NoLineTerminator(q[1..]))
  }

  /** The length of the `https?://` prefix of `s`, or 0 when it has none. */
  function SchemeLength(s: string): (n: nat)
    ensures n == 0 || n == 7 || n == 8
    ensures n > 0 ==> n <= |s|
  {
    if |s| >= 7 && s[..7] == "http://" then 7
    else if |s| >= 8 && s[..8] == "https://" then 8
    else 0
  }

  /** After the scheme of length `n`, `.+.` runs up to `j`, the letters "pdf" follow, then the query. */
  predicate PdfAt(s: string, n: nat, j: int) {
    n + 2 <= j && j + 3 <= |s| && NoLineTerminator(s[n..j]) && PdfLetters(s[j..j + 3]) && Query(s[j + 3..])
  }

  /** Whether `s` matches the PDF URL pattern: some placement of the letters "pdf" works. */
  predicate PdfUrl(s: string) {
    var n := SchemeLength(s);
    n > 0 && exists j :: n + 2 <= j <= |s| - 3 && PdfAt(s, n, j)
  }

  /** Every URL the pattern accepts splits into the pattern's parts. */
  lemma PdfUrlDecomposes(s: string) returns (scheme: string, host: string, c: char, pdf: string, query: string)
    requires PdfUrl(s)
    ensures scheme == "http" || scheme == "https"
    ensures host != "" && NoLineTerminator(host) && NotLineTerminator(c)
    ensures PdfLetters(pdf) && Query(query)
    ensures s == scheme + "://" + host + [c] + pdf + query
  {
    var n := SchemeLength(s);
    var j :| n + 2 <= j <= |s| - 3 && PdfAt(s, n, j);
    scheme := SchemeOf(s);
    host, c, pdf, query := s[n..j - 1], s[j - 1], s[j..j + 3], s[j + 3..];
    forall i | 0 <= i < |host| ensures NotLineTerminator(host[i]) {
      assert host[i] == s[n..j][i];
    }
    assert c == s[n..j][j - 1 - n];
    CutFive(s, n, j);
  }

  /** The scheme of a URL with a `https?://` prefix. */
  lemma SchemeOf(s: string) returns (scheme: string)
    requires SchemeLength(s) > 0
    ensures scheme == "http" || scheme == "https"
    ensures s[..SchemeLength(s)] == scheme + "://"
  {
    if SchemeLength(s) == 7 {
      scheme := "http";
      assert s[..7] == "http://";
    } else {
      scheme := "https";
      assert s[..8] == "https://";
    }
  }

  /** A string is the concatenation of its pieces cut at `n`, `j - 1`, `j` and `j + 3`. */
  lemma CutFive(s: string, n: nat, j: nat)
    requires n < j && j + 3 <= |s|
    ensures s == s[..n] + s[n..j - 1] + [s[j - 1]] + s[j..j + 3] + s[j + 3..]
  {
    assert s[..j - 1] == s[..n] + s[n..j - 1];
    assert s[..j] == s[..j - 1] + [s[j - 1]];
    assert s[..j + 3] == s[..j] + s[j..j + 3];
    assert s == s[..j + 3] + s[j + 3..];
  }

  /** Every assembly of the pattern's parts is accepted. */
  lemma PdfUrlAccepts(scheme: string, host: string, c: char, pdf: string, query: string)
    requires scheme == "http" || scheme == "https"
    requires host != "" && NoLineTerminator(host) && NotLineTerminator(c)
    requires PdfLetters(pdf) && Query(query)
    ensures PdfUrl(scheme + "://" + host + [c] + pdf + query)
  {
    var prefix := scheme + "://";
    var withHost := prefix + host;
    var upToPdf := withHost + [c];
    var withPdf := upToPdf + pdf;
    var s := withPdf + query;
    var n, j := |prefix|, |upToPdf|;
    assert s[..j] == upToPdf && s[j..j + 3] == pdf && s[j + 3..] == query;
    assert s[n..j] == host + [c] by {
      assert s[n..j] == upToPdf[n..];
      assert upToPdf[..n] == prefix;
    }
    assert NoLineTerminator(s[n..j]) by {
      forall i | 0 <= i < j - n ensures NotLineTerminator(s[n..j][i]) {
        if i < |host| {
          assert s[n..j][i] == host[i];
        }
      }
    }
    assert s[..n] == prefix;
    if scheme == "http" {
      assert s[..7] == "http://";
    } else {
      assert s[..7] != "http://" by {
        assert s[..7][4] == 's';
      }
      assert s[..8] == "https://";
    }
    assert PdfAt(s, n, j);
  }

  /** The character before "pdf" need not be a dot. */
  lemma PdfWithoutDotAccepted()
    ensures PdfUrl("https://example.com/xpdf")
  {
    var scheme, host, pdf := "https", "example.com/", "pdf";
    assert scheme + "://" + host + ['x'] + pdf + "" == "https://example.com/xpdf";
    PdfUrlAccepts(scheme, host, 'x', pdf, "");
  }

  /** A question mark that ends the URL, with no other before it, has nothing after it and is rejected. */
  lemma BareQuestionMarkRejected(s: string)
    requires |s| > 0 && s[|s| - 1] == '?'
    requires forall i :: 0 <= i < |s| - 1 ==> s[i] != '?'
    ensures !PdfUrl(s)
  {
    var n := SchemeLength(s);
    forall j | n + 2 <= j <= |s| - 3 ensures !PdfAt(s, n, j) {
      var q := s[j + 3..];
      if q == "" {
        assert s[j..j + 3][2] == s[|s| - 1];
      } else if |q| >= 2 {
        assert q[0] == s[j + 3];
      }
    }
  }
}
