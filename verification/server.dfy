/**
  The Flask handlers of server/server.py that make decisions: validation and
  echo in `predict_home_price`, the content-type choice in `serve_static`,
  and the CORS headers `add_cors_headers` appends to every response.
 */
module Server {
  import opened Common

  datatype Header = Header(name: string, value: string)

  /** Response bodies: JSON objects for the API, text for static files. */
  datatype Body =
    | ErrorJson(error: string)
    | PriceJson(estimatedPrice: real, location: string, totalSqft: real, bhk: int, bath: int)
    | FileContent(content: string)
    | FileNotFound(filename: string)
    | ErrorText(message: string)

  /** A response; `headers` lists the headers set explicitly, beyond Flask's defaults. */
  datatype Response = Response(body: Body, status: int, headers: seq<Header>)

  // ----- add_cors_headers -----

  const CorsHeaders: seq<Header> := [
    Header("Access-Control-Allow-Origin", "*"),
    Header("Access-Control-Allow-Headers", "Content-Type"),
    Header("Access-Control-Allow-Methods", "GET, POST, OPTIONS")
  ]

  /** Appends the three CORS headers; the body, the status and the headers
      already present are left as they were. */
  function AddCorsHeaders(r: Response): (r': Response)
    ensures r'.body == r.body && r'.status == r.status
    ensures |r'.headers| == |r.headers| + 3
    ensures r'.headers[..|r.headers|] == r.headers
    ensures r'.headers[|r.headers|] == Header("Access-Control-Allow-Origin", "*")
    ensures r'.headers[|r.headers| + 1] == Header("Access-Control-Allow-Headers", "Content-Type")
    ensures r'.headers[|r.headers| + 2] == Header("Access-Control-Allow-Methods", "GET, POST, OPTIONS")
  {
    r.(headers := r.headers + CorsHeaders)
  }

  // ----- serve_static -----

  /** Python's `str.endswith`. */
  predicate EndsWith(s: string, suffix: string)
  {
    |suffix| <= |s| && s[|s| - |suffix|..] == suffix
  }

  lemma EndsWithAppended(stem: string, suffix: string)
    ensures EndsWith(stem + suffix, suffix)
  {
  }

  /** What the file system offers for a requested path. */
  datatype StaticFile = Missing | Readable(content: string) | Unreadable(reason: string)

  const CssType: string := "text/css"
  const JsType: string := "application/javascript"

  /** The Content-Type header `serve_static` sets, if any. */
  function ContentTypeHeaders(filename: string): (hs: seq<Header>)
    ensures EndsWith(filename, ".css") ==> hs == [Header("Content-Type", CssType)]
    ensures !EndsWith(filename, ".css") && EndsWith(filename, ".js") ==> hs == [Header("Content-Type", JsType)]
    ensures !EndsWith(filename, ".css") && !EndsWith(filename, ".js") ==> hs == []
  {
    if EndsWith(filename, ".css") then [Header("Content-Type", CssType)]
    else if EndsWith(filename, ".js") then [Header("Content-Type", JsType)]
    else []
  }

  /** No file name ends in both ".css" and ".js", so the order of the two suffix tests does not matter. */
  lemma SuffixesExclusive(filename: string)
    ensures !(EndsWith(filename, ".css") && EndsWith(filename, ".js"))
  {
    if EndsWith(filename, ".css") {
      var n := |filename|;
      assert filename[n - 2] == 's' by {
        assert filename[n - 4..][2] == ".css"[2];
      }
      assert filename[n - 3..][1] != ".js"[1];
    }
  }

  function ServeStatic(filename: string, file: StaticFile): (r: Response)
    ensures r.status == 404 <==> file.Missing?
    ensures file.Missing? ==> r.body == FileNotFound(filename) && r.headers == []
    ensures r.status == 200 <==> file.Readable?
    ensures file.Readable? ==> r.body == FileContent(file.content) && r.headers == ContentTypeHeaders(filename)
    ensures file.Unreadable? ==> r.status == 500 && r.body == ErrorText("Error: " + file.reason)
  {
    match file
    case Missing => Response(FileNotFound(filename), 404, [])
    case Readable(content) => Response(FileContent(content), 200, ContentTypeHeaders(filename))
    case Unreadable(reason) => Response(ErrorText("Error: " + reason), 500, [])
  }

  /** Served files get their type from the suffix alone: any stem followed by
      ".css" is served as CSS, any followed by ".js" as JavaScript. */
  lemma StaticTypeFollowsSuffix(stem: string, content: string)
    ensures ServeStatic(stem + ".css", Readable(content)).headers == [Header("Content-Type", CssType)]
    ensures ServeStatic(stem + ".js", Readable(content)).headers == [Header("Content-Type", JsType)]
  {
    EndsWithAppended(stem, ".css");
    EndsWithAppended(stem, ".js");
    SuffixesExclusive(stem + ".js");
  }

  // ----- predict_home_price -----

  /** A form field: not sent, sent and parsed by Python's `float()`/`int()`,
      or sent but rejected by that parser with a ValueError. */
  datatype FormField<T> = Absent | Given(value: T) | Malformed

  datatype PredictForm = PredictForm(
    totalSqft: FormField<real>,
    location: Option<string>,
    bhk: FormField<int>,
    bath: FormField<int>)

  /** What the price model (`util.get_estimated_price`) does with a request. */
  datatype Estimation = Price(value: real) | RaisesValueError | Raises(message: string)

  const InvalidParameters: string := "Invalid input parameters"
  const InvalidFormat: string := "Invalid input format"

  predicate WellFormed(form: PredictForm)
  {
    !form.totalSqft.Malformed? && !form.bhk.Malformed? && !form.bath.Malformed?
  }

  /** The field's value after defaulting, or None when parsing raised a ValueError. */
  function Parse<T>(field: FormField<T>, default: T): (v: Option<T>)
    ensures v.None? <==> field.Malformed?
    ensures field.Absent? ==> v == Some(default)
    ensures field.Given? ==> v == Some(field.value)
  {
    match field
    case Absent => Some(default)
    case Given(x) => Some(x)
    case Malformed => None
  }

  /** The validation rule stated field by field: a field that is missing or
      not positive, or a missing or empty location. */
  predicate RejectedFieldwise(form: PredictForm)
  {
    || form.totalSqft.Absent? || (form.totalSqft.Given? && form.totalSqft.value <= 0.0)
    || form.bhk.Absent? || (form.bhk.Given? && form.bhk.value <= 0)
    || form.bath.Absent? || (form.bath.Given? && form.bath.value <= 0)
    || form.location.None? || form.location.value == ""
  }

  function PredictHomePrice(form: PredictForm, estimate: (string, real, int, int) -> Estimation): (r: Response)
    ensures r.headers == []
    ensures r.status in {200, 400, 500}
    ensures !WellFormed(form) ==> r == Response(ErrorJson(InvalidFormat), 400, [])
    ensures r == Response(ErrorJson(InvalidParameters), 400, []) <==> WellFormed(form) && RejectedFieldwise(form)
    ensures r.status == 200 <==>
              && WellFormed(form) && !RejectedFieldwise(form)
              && estimate(form.location.value, form.totalSqft.value, form.bhk.value, form.bath.value).Price?
    ensures r.status == 200 ==>
              r.body == PriceJson(
                estimate(form.location.value, form.totalSqft.value, form.bhk.value, form.bath.value).value,
                form.location.value, form.totalSqft.value, form.bhk.value, form.bath.value)
    ensures WellFormed(form) && !RejectedFieldwise(form) ==>
              match estimate(form.location.value, form.totalSqft.value, form.bhk.value, form.bath.value)
              case Price(_) => true
              case RaisesValueError => r == Response(ErrorJson(InvalidFormat), 400, [])
              case Raises(message) => r == Response(ErrorJson(message), 500, [])
  {
    var sqft := Parse(form.totalSqft, 0.0);
    var location := form.location.GetOr("");
    var bhk := Parse(form.bhk, 0);
    var bath := Parse(form.bath, 0);
    if sqft.None? || bhk.None? || bath.None? then
      Response(ErrorJson(InvalidFormat), 400, [])
    else if sqft.value <= 0.0 || bhk.value <= 0 || bath.value <= 0 || location == "" then
      Response(ErrorJson(InvalidParameters), 400, [])
    else
      match estimate(location, sqft.value, bhk.value, bath.value)
      case Price(p) => Response(PriceJson(p, location, sqft.value, bhk.value, bath.value), 200, [])
      case RaisesValueError => Response(ErrorJson(InvalidFormat), 400, [])
      case Raises(message) => Response(ErrorJson(message), 500, [])
  }

  /** A form missing any field never reaches the price model: it is answered
      with a 400, either for the bad parameters or for another field's format. */
  lemma MissingFieldRejected(form: PredictForm, estimate: (string, real, int, int) -> Estimation)
    requires form.totalSqft.Absent? || form.bhk.Absent? || form.bath.Absent? || form.location.None?
    ensures PredictHomePrice(form, estimate).status == 400
    ensures PredictHomePrice(form, estimate).body in {ErrorJson(InvalidParameters), ErrorJson(InvalidFormat)}
  {
  }

  /** The whole exchange as the browser sees it: the handler's response with the CORS headers appended. */
  function AfterRequest(r: Response): (r': Response)
    ensures r'.status == r.status && r'.body == r.body
    ensures r'.headers == r.headers + CorsHeaders
  {
    AddCorsHeaders(r)
  }
}
