/** geo/process.go: repair of the native engine's JSON output and the small JSON helpers
    around it. */
module GeoProcess {
  import opened Wrappers
  import opened Text
  import opened GeoTypes

  /** `CleanCppMessage`: the engine may leave junk after its JSON or drop the closing brace;
      the text is cut just after its last `}`, or gets a `}` appended when it has none. */
  function CleanCppMessage(msg: string): (res: string)
    ensures |res| > 0 && res[|res| - 1] == '}'
    ensures '}' !in msg ==> res == msg + "}"
    ensures '}' in msg ==> res <= msg && '}' !in msg[|res|..]
  {
    var last := LastIndexOf(msg, '}');
    if last == -1 then msg + "}"
    else if last != |msg| - 1 then msg[..last + 1]
    else msg
  }

  /** Cleaning twice is cleaning once. */
  lemma CleanIdempotent(msg: string)
    ensures CleanCppMessage(CleanCppMessage(msg)) == CleanCppMessage(msg)
  {
    var once := CleanCppMessage(msg);
    assert LastIndexOf(once, '}') == |once| - 1;
  }

  /** A message that already ends with `}` is left unchanged, whatever braces come before. */
  lemma CleanKeepsTerminated(msg: string)
    requires |msg| > 0 && msg[|msg| - 1] == '}'
    ensures CleanCppMessage(msg) == msg
  {
    assert LastIndexOf(msg, '}') == |msg| - 1;
  }

  /** The comma-separated decimal rendering of a non-empty node list. */
  function Items(ns: seq<int>): string
    requires |ns| > 0
    decreases |ns|
  {
    if |ns| == 1 then IntToDecimal(ns[0]) else IntToDecimal(ns[0]) + "," + Items(ns[1..])
  }

  const SourcesKey := "{\"sources\":"

  /** `MatrixToJson`: `json.Marshal(Matrix{Nodes: nodes})`. The node list the geoindexer
      returns for no coordinates is a nil slice, which marshals as `null`. */
  function MatrixToJson(nodes: seq<int>): (json: string)
    ensures SourcesKey <= json && json[|json| - 1] == '}'
  {
    if nodes == [] then SourcesKey + "null}" else SourcesKey + "[" + Items(nodes) + "]}"
  }

  /** A JSON integer at the head of `s`: the value and the number of characters it takes. */
  function ParseInt(s: string): Option<(int, nat)>
  {
    if |s| > 0 && s[0] == '-' then
      var n := LeadingDigits(s[1..]);
      var v: int := DigitsValue(s[1..][..n]);
      if n == 0 then None else Some((-v, n + 1))
    else
      var n := LeadingDigits(s);
      if n == 0 then None else Some((DigitsValue(s[..n]), n))
  }

  /** The items of a JSON integer array after its `[`: the values and what follows the `]`. */
  function ParseItems(s: string): Option<(seq<int>, string)>
    decreases |s|
  {
    match ParseInt(s)
    case None => None
    case Some((v, n)) =>
      if n < |s| && s[n] == ']' then Some(([v], s[n + 1..]))
      else if n < |s| && s[n] == ',' then
        match ParseItems(s[n + 1..])
        case None => None
        case Some((vs, rest)) => Some(([v] + vs, rest))
      else None
  }

  /** The reading side of `MatrixToJson`: the node list of a `{"sources": …}` object. */
  function ParseMatrixJson(json: string): Option<seq<int>>
  {
    if !(SourcesKey <= json) then None
    else
      var body := json[|SourcesKey|..];
      if body == "null}" then Some([])
      else if |body| > 0 && body[0] == '[' then
        match ParseItems(body[1..])
        case None => None
        case Some((vs, rest)) => if rest == "}" then Some(vs) else None
      else None
  }

  lemma ParseNatDecimal(n: nat, rest: string)
    requires rest == [] || !IsDigit(rest[0])
    ensures ParseInt(NatToDecimal(n) + rest) == Some((n, |NatToDecimal(n)|))
  {
    var d := NatToDecimal(n);
    var s := d + rest;
    assert s[0] != '-' by {
      assert s[0] == d[0];
    }
    LeadingDigitsOfDigits(d, rest);
    assert s[..|d|] == d;
    DecimalValue(n);
  }

  lemma ParseNegDecimal(n: nat, rest: string)
    requires n > 0 && (rest == [] || !IsDigit(rest[0]))
    ensures ParseInt("-" + NatToDecimal(n) + rest) == Some((-(n as int), |NatToDecimal(n)| + 1))
  {
    var d := NatToDecimal(n);
    var s := "-" + d + rest;
    assert s[1..] == d + rest;
    LeadingDigitsOfDigits(d, rest);
    assert s[1..][..|d|] == d;
    DecimalValue(n);
  }

  lemma ParseIntDecimal(i: int, rest: string)
    requires rest == [] || !IsDigit(rest[0])
    ensures ParseInt(IntToDecimal(i) + rest) == Some((i, |IntToDecimal(i)|))
  {
    if i < 0 {
      ParseNegDecimal(-i, rest);
    } else {
      ParseNatDecimal(i, rest);
    }
  }

  lemma ParseItemsLast(v: int, after: string)
    requires |after| > 0 && after[0] == ']'
    ensures ParseItems(IntToDecimal(v) + after) == Some(([v], after[1..]))
  {
    var d := IntToDecimal(v);
    var s := d + after;
    ParseIntDecimal(v, after);
    assert s[|d|] == ']';
    assert s[|d| + 1..] == after[1..];
  }

  lemma ParseItemsCons(v: int, tail: string)
    ensures ParseItems(IntToDecimal(v) + ("," + tail)) ==
      match ParseItems(tail)
      case None => None
      case Some((vs, rest)) => Some(([v] + vs, rest))
  {
    var d := IntToDecimal(v);
    var s := d + ("," + tail);
    ParseIntDecimal(v, "," + tail);
    assert ParseInt(s) == Some((v, |d|));
    assert |d| < |s| && s[|d|] == ',';
    assert s[|d| + 1..] == tail;
  }

  lemma ItemsCons(ns: seq<int>, after: string)
    requires |ns| > 1
    ensures Items(ns) + after == IntToDecimal(ns[0]) + ("," + (Items(ns[1..]) + after))
  {
    var d, t := IntToDecimal(ns[0]), Items(ns[1..]);
    assert Items(ns) == d + "," + t;
    ConcatAssoc(d, ",", t);
    ConcatAssoc(d, "," + t, after);
    ConcatAssoc(",", t, after);
  }

  lemma {:induction false} ParseItemsRoundTrip(ns: seq<int>, after: string)
    requires |ns| > 0 && |after| > 0 && after[0] == ']'
    ensures ParseItems(Items(ns) + after) == Some((ns, after[1..]))
    decreases |ns|
  {
    if |ns| == 1 {
      ParseItemsLast(ns[0], after);
      assert [ns[0]] == ns;
    } else {
      ItemsCons(ns, after);
      ParseItemsCons(ns[0], Items(ns[1..]) + after);
      ParseItemsRoundTrip(ns[1..], after);
      assert [ns[0]] + ns[1..] == ns;
    }
  }

  /** Parsing what `MatrixToJson` emits gives back the node list. */
  lemma MatrixJsonRoundTrip(nodes: seq<int>)
    ensures ParseMatrixJson(MatrixToJson(nodes)) == Some(nodes)
  {
    var json := MatrixToJson(nodes);
    var body := json[|SourcesKey|..];
    if nodes != [] {
      assert body == "[" + Items(nodes) + "]}";
      assert body[1..] == Items(nodes) + "]}";
      ParseItemsRoundTrip(nodes, "]}");
    } else {
      assert body == "null}";
    }
  }

  /** Different node lists give different engine inputs. */
  lemma MatrixToJsonInjective(a: seq<int>, b: seq<int>)
    requires MatrixToJson(a) == MatrixToJson(b)
    ensures a == b
  {
    MatrixJsonRoundTrip(a);
    MatrixJsonRoundTrip(b);
  }

  const JsonParsingError := "JSON parsing error: "

  /** `ParseJsonMatrix`: the decoder's result, its error message prefixed. */
  function ParseJsonMatrix(unmarshal: string -> Result<seq<Coord>, string>, matrix: string)
    : (r: Result<seq<Coord>, string>)
    ensures unmarshal(matrix).Success? ==> r == unmarshal(matrix)
    ensures unmarshal(matrix).Failure? ==>
      r.Failure? && JsonParsingError <= r.error && r.error[|JsonParsingError|..] == unmarshal(matrix).error
  {
    match unmarshal(matrix)
    case Success(coords) => Success(coords)
    case Failure(e) => Failure(JsonParsingError + e)
  }
}
