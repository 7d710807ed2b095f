/**
 * How `generateTrademarks` turns the provider's raw text into at most ten
 * `{name, description, industry}` records (convex/trademarks.ts:139-165):
 * strip Markdown fences, `JSON.parse`, pick the array of candidates, coerce
 * the first ten. `JSON.parse` is a parameter: a partial function from text
 * to a JSON value, None where it throws a SyntaxError.
 */
module ResponseNormalization {
  import opened Wrappers
  import opened JsText
  import opened JsonValue
  import opened ConvexErrors

  /** One validated name record, in the shape the `trademarks` table stores. */
  datatype Trademark = Trademark(name: JsString, description: JsString, industry: JsString)

  // ---------------------------------------------------------------- fences

  const JsonFence: JsString := Ascii("```json")
  const Fence: JsString := Ascii("```")
  const Newline: CodeUnit := 0x0A
  const Backtick: CodeUnit := 0x60

  /**
   * `s.replace(/<marker>\n?/g, '')`: scanning left to right, every occurrence
   * of marker is removed together with one newline directly after it.
   */
  function RemoveMarker(s: JsString, marker: JsString): (r: JsString)
    requires |marker| > 0
    ensures |r| <= |s|
    ensures !Contains(s, marker) ==> r == s
    decreases |s|
  {
    if marker <= s then
      var rest := s[|marker|..];
      if |rest| > 0 && rest[0] == Newline then RemoveMarker(rest[1..], marker)
      else RemoveMarker(rest, marker)
    else if |s| == 0 then []
    else [s[0]] + RemoveMarker(s[1..], marker)
  }

  /** The text handed to `JSON.parse` (line 143). */
  function Clean(response: JsString): (r: JsString)
    ensures |r| <= |response|
    ensures |r| > 0 ==> !IsSpace(r[0]) && !IsSpace(r[|r| - 1])
  {
    Trim(RemoveMarker(RemoveMarker(response, JsonFence), Fence))
  }

  /** A prefix free of the marker's first unit passes through unchanged. */
  lemma {:induction false} RemoveMarkerPassThrough(pre: JsString, rest: JsString, marker: JsString)
    requires |marker| > 0 && marker[0] !in pre
    ensures RemoveMarker(pre + rest, marker) == pre + RemoveMarker(rest, marker)
  {
    if |pre| > 0 {
      var s := pre + rest;
      assert s[0] == pre[0] != marker[0];
      assert !(marker <= s);
      assert s[1..] == pre[1..] + rest;
      RemoveMarkerPassThrough(pre[1..], rest, marker);
    } else {
      assert pre + rest == rest;
    }
  }

  /** The `\n?` of both patterns: a newline right after a marker goes with it. */
  lemma MarkerEatsNewline(marker: JsString, rest: JsString)
    requires |marker| > 0
    ensures RemoveMarker(marker + [Newline] + rest, marker) == RemoveMarker(rest, marker)
  {
    var s := marker + [Newline] + rest;
    assert marker <= s;
    assert s[|marker|..] == [Newline] + rest;
    assert s[|marker|..][1..] == rest;
  }

  /** Inside the text too: "a```\nb" loses both the fence and the newline, leaving "ab". */
  lemma InteriorFenceRemoved(a: JsString, b: JsString)
    requires Backtick !in a
    ensures RemoveMarker(a + Fence + [Newline] + b, Fence) == a + RemoveMarker(b, Fence)
  {
    assert Fence[0] == Backtick;
    assert a + Fence + [Newline] + b == a + (Fence + [Newline] + b);
    RemoveMarkerPassThrough(a, Fence + [Newline] + b, Fence);
    MarkerEatsNewline(Fence, b);
  }

  lemma ShortNoMarker(s: JsString, marker: JsString)
    requires |s| < |marker|
    ensures !Contains(s, marker)
  {
    ContainsAt(s, marker);
  }

  /** Text with no backtick reaches `JSON.parse` exactly trimmed. */
  lemma CleanWithoutBackticks(s: JsString)
    requires Backtick !in s
    ensures Clean(s) == Trim(s)
  {
    assert JsonFence[0] == Backtick && Fence[0] == Backtick;
    AbsentHead(s, JsonFence);
    AbsentHead(s, Fence);
  }

  /** A fenced block "```json\n" + x + "\n```" around backtick-free x reaches `JSON.parse` as trim(x). */
  lemma CleanFencedBlock(x: JsString)
    requires Backtick !in x
    ensures Clean(Ascii("```json\n") + x + Ascii("\n```")) == Trim(x)
  {
    assert Ascii("```json\n") == JsonFence + [Newline];
    assert Ascii("\n```") == [Newline] + Fence;
    var s := JsonFence + [Newline] + x + [Newline] + Fence;
    assert Ascii("```json\n") + x + Ascii("\n```") == s;
    var mid := x + [Newline] + Fence;
    assert s[|JsonFence|..] == [Newline] + mid;
    assert [Newline] + mid == ([Newline] + mid)[..];
    assert RemoveMarker(s, JsonFence) == RemoveMarker(mid, JsonFence);
    RemoveMarkerPassThrough(x + [Newline], Fence, JsonFence);
    ShortNoMarker(Fence, JsonFence);
    assert RemoveMarker(mid, JsonFence) == mid;
    RemoveMarkerPassThrough(x + [Newline], Fence, Fence);
    assert RemoveMarker(Fence, Fence) == RemoveMarker([], Fence) == [];
    assert RemoveMarker(mid, Fence) == x + [Newline];
    TrimSnoc(x, Newline);
  }

  // ------------------------------------------------------- array selection

  const TrademarksKey: JsString := Ascii("trademarks")
  const NamesKey: JsString := Ascii("names")
  const DataKey: JsString := Ascii("data")

  /** `a || b` on two property reads. */
  function Or(a: Option<Json>, b: Option<Json>): (r: Option<Json>)
    ensures r == a || r == b
    ensures TruthyProperty(r) <==> TruthyProperty(a) || TruthyProperty(b)
    ensures TruthyProperty(a) ==> r == a
    ensures !TruthyProperty(a) ==> r == b
  {
    if TruthyProperty(a) then a else b
  }

  /** `parsed.trademarks || parsed.names || parsed.data`, before the final `|| []`. */
  function AliasValue(parsed: Json): (r: Option<Json>)
    ensures !parsed.Obj? ==> r.None?
    ensures TruthyProperty(r) <==>
              TruthyProperty(Property(parsed, TrademarksKey)) || TruthyProperty(Property(parsed, NamesKey)) ||
              TruthyProperty(Property(parsed, DataKey))
    ensures TruthyProperty(Property(parsed, TrademarksKey)) ==> r == Property(parsed, TrademarksKey)
    ensures !TruthyProperty(Property(parsed, TrademarksKey)) && TruthyProperty(Property(parsed, NamesKey)) ==>
              r == Property(parsed, NamesKey)
    ensures !TruthyProperty(Property(parsed, TrademarksKey)) && !TruthyProperty(Property(parsed, NamesKey)) ==>
              r == Property(parsed, DataKey)
  {
    Or(Or(Property(parsed, TrademarksKey), Property(parsed, NamesKey)), Property(parsed, DataKey))
  }

  /** `values.find(val => Array.isArray(val))`, giving the elements of the first array. */
  function FirstArray(values: seq<Json>): (r: Option<seq<Json>>)
    ensures r.None? <==> forall i :: 0 <= i < |values| ==> !values[i].Arr?
    ensures r.Some? ==> exists i :: 0 <= i < |values| && values[i] == Arr(r.value) &&
                                    forall j :: 0 <= j < i ==> !values[j].Arr?
  {
    if |values| == 0 then None
    else if values[0].Arr? then Some(values[0].elems)
    else
      var r := FirstArray(values[1..]);
      assert r.Some? ==> (exists i :: 0 <= i < |values| && values[i] == Arr(r.value) &&
                                      forall j :: 0 <= j < i ==> !values[j].Arr?) by {
        if r.Some? {
          var i :| 0 <= i < |values[1..]| && values[1..][i] == Arr(r.value) &&
                   forall j :: 0 <= j < i ==> !values[1..][j].Arr?;
          assert forall j :: 0 <= j < i + 1 ==> !values[j].Arr? by {
            forall j | 0 <= j < i + 1 ensures !values[j].Arr? {
              if j > 0 { assert values[j] == values[1..][j - 1]; }
            }
          }
        }
      }
      assert r.None? ==> forall i :: 0 <= i < |values| ==> !values[i].Arr? by {
        if r.None? {
          forall i | 0 <= i < |values| ensures !values[i].Arr? {
            if i > 0 { assert values[i] == values[1..][i - 1]; }
          }
        }
      }
      r
  }

  /**
   * The candidate list (lines 146-153). None is the TypeError of reading a
   * property of a top-level `null`, which the inner catch turns into the
   * parse failure.
   */
  function Candidates(parsed: Json): (r: Option<seq<Json>>)
    ensures r.None? <==> parsed.Null?
    ensures parsed.Arr? ==> r == Some(parsed.elems)
    // a string, number or boolean has none of the alias properties
    ensures (parsed.Str? || parsed.Num? || parsed.Bool?) ==> r == Some([])
    // without a truthy alias the result is empty, whatever other fields hold
    ensures parsed.Obj? && !TruthyProperty(AliasValue(parsed)) ==> r == Some([])
    ensures parsed.Obj? && TruthyProperty(AliasValue(parsed)) && AliasValue(parsed).value.Arr? ==>
              r == Some(AliasValue(parsed).value.elems)
    // the scan over all fields happens only for a truthy alias that is not an array
    ensures parsed.Obj? && TruthyProperty(AliasValue(parsed)) && !AliasValue(parsed).value.Arr? ==>
              r == Some(match FirstArray(Values(parsed.fields)) case Some(xs) => xs case None => [])
    // the candidates are always an array found in the parsed value, or empty
    ensures r.Some? ==>
              (r.value == [] || parsed == Arr(r.value) ||
               (parsed.Obj? && exists i :: 0 <= i < |parsed.fields| && parsed.fields[i].value == Arr(r.value)))
  {
    if parsed.Arr? then Some(parsed.elems)
    else if parsed.Null? then None
    else
      var chosen := AliasValue(parsed);
      if !TruthyProperty(chosen) then Some([])
      else if chosen.value.Arr? then Some(chosen.value.elems)
      else
        // a truthy property read exists only on an object
        match FirstArray(Values(parsed.fields))
        case Some(xs) => Some(xs)
        case None => Some([])
  }

  /** The first truthy alias wins, so an empty `trademarks` array hides a full `names` array. */
  lemma EmptyTrademarksWins(names: seq<Json>, more: seq<Field>)
    ensures Candidates(Obj([Field(TrademarksKey, Arr([])), Field(NamesKey, Arr(names))] + more)) == Some([])
  {
    var fs := [Field(TrademarksKey, Arr([])), Field(NamesKey, Arr(names))] + more;
    assert fs[0] == Field(TrademarksKey, Arr([]));
    assert Lookup(fs, TrademarksKey) == Some(Arr([]));
  }

  /** A bare array, `{"trademarks": xs}` and `{"data": xs}` all give the same candidates. */
  lemma AliasTolerance(xs: seq<Json>)
    ensures Candidates(Obj([Field(TrademarksKey, Arr(xs))])) == Some(xs)
    ensures Candidates(Obj([Field(DataKey, Arr(xs))])) == Some(xs)
    ensures Candidates(Arr(xs)) == Some(xs)
  {
    assert TrademarksKey != NamesKey && TrademarksKey != DataKey;
    assert DataKey != TrademarksKey && DataKey != NamesKey;
  }

  // ----------------------------------------------------------- coercion

  const NameKey: JsString := Ascii("name")
  const DescriptionKey: JsString := Ascii("description")
  const IndustryKey: JsString := Ascii("industry")

  const Unnamed: JsString := Ascii("Unnamed")
  const DefaultDescription: JsString := Ascii("A creative brand name")
  const DefaultIndustry: JsString := Ascii("Retail")
  const DescriptionLimit: nat := 100
  const MaxTrademarks: nat := 10

  /** The length `slice(0, a)` keeps of a sequence of length b. */
  function Min(a: int, b: int): (m: int)
    ensures m <= a && m <= b && (m == a || m == b)
  {
    if a <= b then a else b
  }

  /** `String(tm.key || fallback)` for a non-null entry; None where `String()` throws. */
  function FieldText(tm: Json, key: JsString, fallback: JsString): (r: Option<JsString>)
    ensures !TruthyProperty(Property(tm, key)) ==> r == Some(fallback)
    ensures TruthyProperty(Property(tm, key)) ==> r == StringOf(Property(tm, key).value)
  {
    var p := Property(tm, key);
    if TruthyProperty(p) then StringOf(p.value) else Some(fallback)
  }

  /** The object literal built for one candidate (lines 161-165); None where it throws. */
  function Coerce(tm: Json): (r: Option<Trademark>)
    ensures tm.Null? ==> r.None?
    ensures r.Some? ==> |r.value.description| <= DescriptionLimit
  {
    if tm.Null? then None   // reading `null.name` throws a TypeError
    else
      match (FieldText(tm, NameKey, Unnamed), FieldText(tm, DescriptionKey, DefaultDescription),
             FieldText(tm, IndustryKey, DefaultIndustry))
      case (Some(n), Some(d), Some(i)) => Some(Trademark(n, d[..Min(DescriptionLimit, |d|)], i))
      case _ => None
  }

  /**
   * Field by field: a falsy or missing field gets its placeholder, a truthy one
   * is converted with `String()`; only the description is cut, to its first
   * 100 code units, and nothing is trimmed.
   */
  lemma CoerceFields(tm: Json)
    requires !tm.Null?
    ensures Coerce(tm).Some? <==>
              FieldText(tm, NameKey, Unnamed).Some? &&
              FieldText(tm, DescriptionKey, DefaultDescription).Some? &&
              FieldText(tm, IndustryKey, DefaultIndustry).Some?
    ensures Coerce(tm).Some? ==>
              var t := Coerce(tm).value;
              var d := FieldText(tm, DescriptionKey, DefaultDescription).value;
              (if TruthyProperty(Property(tm, NameKey)) then Some(t.name) == StringOf(Property(tm, NameKey).value)
               else t.name == Unnamed) &&
              (if TruthyProperty(Property(tm, IndustryKey)) then Some(t.industry) == StringOf(Property(tm, IndustryKey).value)
               else t.industry == DefaultIndustry) &&
              |t.description| == Min(DescriptionLimit, |d|) && d[..|t.description|] == t.description &&
              (!TruthyProperty(Property(tm, DescriptionKey)) ==> t.description == DefaultDescription)
  {
    assert |DefaultDescription| == 21;
  }

  /** An entry that is a string, number, boolean or array gets all three placeholders. */
  lemma CoercePrimitive(tm: Json)
    requires !tm.Null? && !tm.Obj?
    ensures Coerce(tm) == Some(Trademark(Unnamed, DefaultDescription, DefaultIndustry))
  {
    assert |DefaultDescription| == 21;
    assert DefaultDescription[..21] == DefaultDescription;
  }

  /** `entries.map(coerce)`: all entries coerced in order, or None at the first that throws. */
  function CoerceAll(entries: seq<Json>): (r: Option<seq<Trademark>>)
    ensures r.Some? <==> forall i :: 0 <= i < |entries| ==> Coerce(entries[i]).Some?
    ensures r.Some? ==> |r.value| == |entries| &&
                        forall i :: 0 <= i < |entries| ==> Coerce(entries[i]) == Some(r.value[i])
  {
    if |entries| == 0 then Some([])
    else
      match (Coerce(entries[0]), CoerceAll(entries[1..]))
      case (Some(t), Some(ts)) =>
        assert forall i :: 1 <= i < |entries| ==> entries[i] == entries[1..][i - 1];
        Some([t] + ts)
      case (None, _) => None
      case (_, None) =>
        assert exists i :: 0 <= i < |entries[1..]| && Coerce(entries[1..][i]).None?;
        None
  }

  /** `candidates.slice(0, 10).map(coerce)` (line 161). */
  function ValidTrademarks(candidates: seq<Json>): (r: Option<seq<Trademark>>)
    ensures r.Some? ==> |r.value| == Min(MaxTrademarks, |candidates|) <= MaxTrademarks
    ensures r.Some? ==> forall i :: 0 <= i < |r.value| ==> Coerce(candidates[i]) == Some(r.value[i])
    ensures r.None? <==> exists i :: 0 <= i < Min(MaxTrademarks, |candidates|) && Coerce(candidates[i]).None?
  {
    var first := candidates[..Min(MaxTrademarks, |candidates|)];
    assert forall i :: 0 <= i < |first| ==> first[i] == candidates[i];
    CoerceAll(first)
  }

  /** Entries after the tenth are never looked at. */
  lemma OnlyFirstTenRead(candidates: seq<Json>, more: seq<Json>)
    requires |candidates| >= MaxTrademarks
    ensures ValidTrademarks(candidates + more) == ValidTrademarks(candidates)
  {
    assert (candidates + more)[..MaxTrademarks] == candidates[..MaxTrademarks];
  }

  /** A null among the first ten candidates makes the whole coercion throw. */
  lemma NullCandidateThrows(candidates: seq<Json>, i: nat)
    requires i < Min(MaxTrademarks, |candidates|) && candidates[i].Null?
    ensures ValidTrademarks(candidates) == None
  {
  }

  /** The JSON object a well-formed record is written as. */
  function RecordObject(t: Trademark): Json
  {
    Obj([Field(NameKey, Str(t.name)), Field(DescriptionKey, Str(t.description)),
         Field(IndustryKey, Str(t.industry))])
  }

  /** A record with non-empty fields and a description of at most 100 units survives coercion unchanged. */
  lemma RecordRoundTrip(t: Trademark)
    requires |t.name| > 0 && |t.industry| > 0 && 0 < |t.description| <= DescriptionLimit
    ensures Coerce(RecordObject(t)) == Some(t)
  {
    var fs := RecordObject(t).fields;
    assert NameKey != DescriptionKey && NameKey != IndustryKey && DescriptionKey != IndustryKey;
    assert Lookup(fs, NameKey) == Some(Str(t.name));
    assert Lookup(fs, DescriptionKey) == Some(Str(t.description));
    assert Lookup(fs[2..], IndustryKey) == Some(Str(t.industry));
    assert Lookup(fs[1..], IndustryKey) == Lookup(fs[1..][1..], IndustryKey);
    assert Lookup(fs, IndustryKey) == Some(Str(t.industry));
    assert t.description[..|t.description|] == t.description;
  }

  /** Up to ten well-formed records written as a JSON array come back unchanged, in order. */
  lemma RecordsRoundTrip(ts: seq<Trademark>)
    requires |ts| <= MaxTrademarks
    requires forall i :: 0 <= i < |ts| ==>
               |ts[i].name| > 0 && |ts[i].industry| > 0 && 0 < |ts[i].description| <= DescriptionLimit
    ensures ValidTrademarks(seq(|ts|, i requires 0 <= i < |ts| => RecordObject(ts[i]))) == Some(ts)
  {
    var objs := seq(|ts|, i requires 0 <= i < |ts| => RecordObject(ts[i]));
    forall i | 0 <= i < |ts| ensures Coerce(objs[i]) == Some(ts[i]) {
      RecordRoundTrip(ts[i]);
    }
    var r := ValidTrademarks(objs);
    assert r.Some?;
    assert r.value == ts;
  }

  // ------------------------------------------------------- whole pipeline

  /**
   * Lines 140-165: clean, parse, select, coerce. A SyntaxError from the parser
   * and the TypeError of a top-level null are caught by the inner handler and
   * become the parse failure; a throw while coercing escapes it as a
   * non-Convex error.
   */
  function Normalize(response: JsString, parse: JsString -> Option<Json>): (r: Result<seq<Trademark>, Thrown>)
    ensures parse(Clean(response)).None? ==> r == Failure(Convex(ParseFailureError))
    ensures parse(Clean(response)) == Some(Null) ==> r == Failure(Convex(ParseFailureError))
    ensures r.Failure? ==> r.error == Convex(ParseFailureError) || r.error == NonConvex
    ensures r.Success? ==> |r.value| <= MaxTrademarks
    ensures r.Success? ==> exists cs :: Candidates(parse(Clean(response)).value) == Some(cs) &&
                                        ValidTrademarks(cs) == Some(r.value)
    // and it succeeds whenever the reply parses to a non-null value whose first candidates all coerce
    ensures r.Success? <==>
              parse(Clean(response)).Some? && Candidates(parse(Clean(response)).value).Some? &&
              ValidTrademarks(Candidates(parse(Clean(response)).value).value).Some?
    // a throw while coercing is outside the inner handler, so it is not the parse failure
    ensures parse(Clean(response)).Some? && Candidates(parse(Clean(response)).value).Some? &&
            ValidTrademarks(Candidates(parse(Clean(response)).value).value).None? ==>
              r == Failure(NonConvex)
  {
    match parse(Clean(response))
    case None => Failure(Convex(ParseFailureError))
    case Some(parsed) =>
      match Candidates(parsed)
      case None => Failure(Convex(ParseFailureError))
      case Some(cs) =>
        match ValidTrademarks(cs)
        case None => Failure(NonConvex)
        case Some(list) => Success(list)
  }
}
