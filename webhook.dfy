/**
 * The webhook dispatch engine of the OCR service (`WebhookService`): for each
 * active webhook configuration, build a payload from the extraction result
 * (default payload, shallow template merge, placeholder substitution on the
 * serialised text) and send it with retries and exponential backoff, collecting
 * one outcome per configuration.
 *
 * The outside world is explicit: the network is a `Transport` whose answer to
 * the k-th request is `reply(k)` and which logs every request and every
 * backoff wait; the clock readings are caller-supplied `Stamps`; the JSON
 * library is an abstract `Codec`; the configuration store is a snapshot.
 */
module Webhook {
  import opened Wrappers
  import opened JsonModel
  import Text

  /** One destination, as the configuration store hands it out. */
  datatype WebhookConfig = WebhookConfig(
    id: string,
    name: string,
    url: string,
    httpMethod: string,
    enabled: bool,
    headers: map<string, string>,
    payloadTemplate: Option<Fields>,
    timeout: int,
    retryAttempts: int,
    retryDelay: int)

  /** The exceptions that can escape payload building, and an unreachable store. */
  datatype Error =
    | ResultsNotIterable   // `for result in ocr_data["results"]` over a truthy number or boolean
    | TextNotString        // `" ".join(text_parts)` with a part that is not a string
    | StoreUnavailable     // the configuration store raised

  /** What the network did with one request. */
  datatype Response = Responded(status: int) | TimedOut | ConnectionFailed

  /** One outbound HTTP request. */
  datatype Request = Request(httpMethod: string, url: string, headers: map<string, string>, body: Json, timeout: int)

  /** The `utcnow()` readings taken while serving one configuration. */
  datatype Stamps = Stamps(payload: string, placeholder: string, outcome: string)

  /** The record `send_ocr_result` appends for one configuration. */
  datatype Outcome = Outcome(
    configId: string,
    configName: string,
    url: string,
    success: bool,
    error: Option<Error>,
    timestamp: string)

  /** The store's own count summary. */
  datatype ConfigSummary = ConfigSummary(total: int, active: int, disabled: int, lastUpdated: Json)

  /** A snapshot of the configuration store: its active list and its summary, or that it raised. */
  datatype ConfigStore = ConfigStore(reachable: bool, active: seq<WebhookConfig>, summary: ConfigSummary)

  /** The dict `get_webhook_status` returns. */
  datatype WebhookStatus = WebhookStatus(
    enabled: bool,
    totalConfigurations: int,
    activeConfigurations: int,
    disabledConfigurations: int,
    lastUpdated: Json,
    activeUrls: seq<string>)

  const SourceName := "paddleocr-microservice"

  const FilenameToken := "{{filename}}"
  const TextCountToken := "{{text_count}}"
  const ConfigNameToken := "{{config_name}}"
  const TimestampToken := "{{timestamp}}"
  const OcrDataToken := "{{ocr_data}}"
  const FullTextToken := "{{full_text_content}}"

  // ---------------------------------------------------------------------------
  // Full text of the segments

  /** The `text` value a segment contributes: a dict segment with a `text` key contributes it. */
  function SegmentText(item: Json): seq<Json>
  {
    match item
    case JObj(f) => if HasKey(f, "text") then [Get(f, "text").value] else []
    case _ => []
  }

  /** The `text` values of the dict segments that have one, in order, empty ones included. */
  function TextParts(items: seq<Json>): (r: seq<Json>)
    ensures |r| <= |items|
  {
    if |items| == 0 then [] else TextParts(items[..|items| - 1]) + SegmentText(items[|items| - 1])
  }

  /** Collecting texts distributes over concatenation: the parts of a list are its segments' parts in order. */
  lemma {:induction false} TextPartsAppend(a: seq<Json>, b: seq<Json>)
    ensures TextParts(a + b) == TextParts(a) + TextParts(b)
    decreases |b|
  {
    if |b| > 0 {
      var b' := b[..|b| - 1];
      assert (a + b)[..|a + b| - 1] == a + b';
      TextPartsAppend(a, b');
    } else {
      assert a + b == a;
    }
  }

  /** The strings of a list known to hold strings only. */
  function Strings(parts: seq<Json>): (r: seq<string>)
    requires forall i :: 0 <= i < |parts| ==> parts[i].JStr?
    ensures |r| == |parts| && forall i :: 0 <= i < |parts| ==> parts[i] == JStr(r[i])
  {
    seq(|parts|, i requires 0 <= i < |parts| => parts[i].s)
  }

  /** `" ".join(text_parts)`, which raises when a part is not a string. */
  function JoinTexts(parts: seq<Json>): Result<string, Error>
  {
    if forall i :: 0 <= i < |parts| ==> parts[i].JStr? then Success(Text.Join(Strings(parts)))
    else Failure(TextNotString)
  }

  /**
   * The segment-derived full text (lines 92-106 and 146-152): the join of the
   * segment texts when `ocr_data["results"]` is a non-empty list, `""` when
   * `results` is absent or falsy or is a string or dict (none of whose members
   * is a dict), and a `TypeError` when it is a truthy number or boolean.
   */
  function SegmentTexts(ocr: Fields): (r: Result<string, Error>)
    ensures r.Success? && r.value != "" ==>
      HasKey(ocr, "results") && Get(ocr, "results").value.JArr? && Get(ocr, "results").value.items != []
    ensures r == Failure(ResultsNotIterable) <==>
      HasKey(ocr, "results") && Truthy(Get(ocr, "results").value)
      && (Get(ocr, "results").value.JNum? || Get(ocr, "results").value.JBool?)
    ensures r == Failure(TextNotString) <==>
      HasKey(ocr, "results") && Get(ocr, "results").value.JArr?
      && exists i :: 0 <= i < |TextParts(Get(ocr, "results").value.items)| && !TextParts(Get(ocr, "results").value.items)[i].JStr?
    ensures r.Failure? ==> r.error == ResultsNotIterable || r.error == TextNotString
  {
    if !HasKey(ocr, "results") || !Truthy(Get(ocr, "results").value) then Success("")
    else
      match Get(ocr, "results").value
      case JArr(items) => JoinTexts(TextParts(items))
      case JStr(_) => Success("")
      case JObj(_) => Success("")
      case _ => Failure(ResultsNotIterable)
  }

  /**
   * The `full_text_content` of the default payload: the segment join, unless
   * that is empty and the result carries its own `full_text_content`.
   */
  function PayloadFullText(ocr: Fields): (r: Result<Json, Error>)
    ensures r.Failure? <==> SegmentTexts(ocr).Failure?
    ensures SegmentTexts(ocr).Success? && SegmentTexts(ocr).value != "" ==> r == Success(JStr(SegmentTexts(ocr).value))
    ensures SegmentTexts(ocr) == Success("") && HasKey(ocr, "full_text_content") ==>
      r == Success(Get(ocr, "full_text_content").value)
    ensures SegmentTexts(ocr) == Success("") && !HasKey(ocr, "full_text_content") ==> r == Success(JStr(""))
  {
    match SegmentTexts(ocr)
    case Failure(e) => Failure(e)
    case Success(s) =>
      Success(if s == "" && HasKey(ocr, "full_text_content") then Get(ocr, "full_text_content").value else JStr(s))
  }

  /** Python strings as JSON strings, in order. */
  function JStrs(texts: seq<string>): seq<Json>
  {
    seq(|texts|, i requires 0 <= i < |texts| => JStr(texts[i]))
  }

  /** Joining a list of strings never raises. */
  lemma JoinStrings(texts: seq<string>)
    ensures JoinTexts(JStrs(texts)) == Success(Text.Join(texts))
  {
    assert Strings(JStrs(texts)) == texts;
  }

  /** A list of segments whose texts are all strings joins them with single spaces, empty texts included. */
  lemma SegmentJoin(ocr: Fields, items: seq<Json>, texts: seq<string>)
    requires Get(ocr, "results") == Some(JArr(items)) && items != []
    requires TextParts(items) == JStrs(texts)
    ensures SegmentTexts(ocr) == Success(Text.Join(texts))
  {
    assert Truthy(JArr(items));
    JoinStrings(texts);
  }

  // ---------------------------------------------------------------------------
  // Default payload and template merge

  /** `metadata.file_type`: "pdf" when the file name's lower-case form ends in ".pdf". */
  function FileType(filename: Option<string>): (r: string)
    ensures r == "pdf" || r == "image"
    ensures r == "pdf" ==> filename.Some? && |filename.value| >= 4
  {
    if filename.Some? && filename.value != "" && Text.EndsWith(Text.Lower(filename.value), ".pdf") then "pdf"
    else "image"
  }

  /** The extension test is case-insensitive and looks at the last four characters only. */
  lemma FileTypeIsPdf(f: string)
    ensures FileType(Some(f)) == "pdf" <==>
      |f| >= 4 && f[|f| - 4] == '.' && f[|f| - 3] in "pP" && f[|f| - 2] in "dD" && f[|f| - 1] in "fF"
  {
    if |f| >= 4 {
      var l := Text.Lower(f);
      assert l[|l| - 4..] == [l[|f| - 4], l[|f| - 3], l[|f| - 2], l[|f| - 1]];
    }
  }

  function FilenameJson(filename: Option<string>): Json
  {
    match filename
    case Some(f) => JStr(f)
    case None => JNull
  }

  /** The default payload (lines 113-125). */
  function DefaultPayload(config: WebhookConfig, ocr: Fields, filename: Option<string>, timestamp: string, fullText: Json): (r: Fields)
    ensures UniqueKeys(r)
    ensures Get(r, "timestamp") == Some(JStr(timestamp))
    ensures Get(r, "source") == Some(JStr(SourceName))
    ensures Get(r, "filename") == Some(if filename.Some? then JStr(filename.value) else JNull)
    ensures Get(r, "ocr_result") == Some(JObj(ocr))
    ensures Get(r, "full_text_content") == Some(fullText)
    ensures Get(r, "metadata").Some? && Get(r, "metadata").value.JObj?
    ensures var meta := Get(r, "metadata").value.fields;
      && Get(meta, "text_count") == Some(GetOr(ocr, "text_count", JNum(0)))
      && Get(meta, "config_name") == Some(JStr(config.name))
      && Get(meta, "processing_method") == Some(GetOr(ocr, "processing_method", JStr("unknown")))
      && Get(meta, "file_type") == Some(JStr(FileType(filename)))
  {
    var meta := [
      ("text_count", GetOr(ocr, "text_count", JNum(0))),
      ("config_name", JStr(config.name)),
      ("processing_method", GetOr(ocr, "processing_method", JStr("unknown"))),
      ("file_type", JStr(FileType(filename)))];
    var r := [
      ("timestamp", JStr(timestamp)),
      ("source", JStr(SourceName)),
      ("filename", FilenameJson(filename)),
      ("ocr_result", JObj(ocr)),
      ("full_text_content", fullText),
      ("metadata", JObj(meta))];
    assert UniqueKeys(meta) && UniqueKeys(r);
    GetListed(meta, 0); GetListed(meta, 1); GetListed(meta, 2); GetListed(meta, 3);
    GetListed(r, 0); GetListed(r, 1); GetListed(r, 2); GetListed(r, 3); GetListed(r, 4); GetListed(r, 5);
    r
  }

  /** `if config.payload_template:` — a missing or empty template counts as none. */
  predicate HasTemplate(config: WebhookConfig)
  {
    config.payloadTemplate.Some? && config.payloadTemplate.value != []
  }

  /**
   * The payload before substitution: the default payload, shallow-updated with
   * the template if there is one. A template key is bound to the template's value
   * (a nested object replaces the default one wholesale), every other default key
   * keeps its default value, the default keys keep their order, and the merge is
   * a dict.
   */
  function MergedPayload(config: WebhookConfig, default: Fields): (r: Fields)
    ensures forall k :: Get(r, k) == (if HasTemplate(config) && HasKey(config.payloadTemplate.value, k)
                                      then Get(config.payloadTemplate.value, k) else Get(default, k))
    ensures |default| <= |r|
    ensures forall i :: 0 <= i < |default| ==> r[i].0 == default[i].0
    ensures forall i :: |default| <= i < |r| ==>
      HasTemplate(config) && HasKey(config.payloadTemplate.value, r[i].0) && !HasKey(default, r[i].0)
    ensures UniqueKeys(default) ==> UniqueKeys(r)
  {
    if HasTemplate(config) then
      var t := config.payloadTemplate.value;
      UpdateAppends(default, t);
      assert forall k :: Get(Update(default, t), k) == if HasKey(t, k) then Get(t, k) else Get(default, k) by {
        forall k ensures Get(Update(default, t), k) == if HasKey(t, k) then Get(t, k) else Get(default, k) {
          UpdateGet(default, t, k);
        }
      }
      Update(default, t)
    else default
  }

  // ---------------------------------------------------------------------------
  // Placeholder substitution

  /** `filename or "unknown"`. */
  function FilenameOrUnknown(filename: Option<string>): string
  {
    if filename.Some? && filename.value != "" then filename.value else "unknown"
  }

  /** The six replacements, in the order the dict literal at lines 158-165 lists (and iterates) them. */
  function Replacements(ocr: Fields, filename: Option<string>, config: WebhookConfig, timestamp: string,
                        fullText: string, codec: Codec): (r: seq<(string, string)>)
    ensures forall i :: 0 <= i < |r| ==> |r[i].0| > 0
    ensures |r| == 6 && r[0].0 == FilenameToken && r[1].0 == TextCountToken && r[2].0 == ConfigNameToken
            && r[3].0 == TimestampToken && r[4].0 == OcrDataToken && r[5].0 == FullTextToken
    ensures r[0].1 == FilenameOrUnknown(filename) && r[1].1 == PyStr(GetOr(ocr, "text_count", JNum(0)), codec)
            && r[2].1 == config.name && r[3].1 == timestamp && r[4].1 == codec.dumps(JObj(ocr)) && r[5].1 == fullText
  {
    [ (FilenameToken, FilenameOrUnknown(filename)),
      (TextCountToken, PyStr(GetOr(ocr, "text_count", JNum(0)), codec)),
      (ConfigNameToken, config.name),
      (TimestampToken, timestamp),
      (OcrDataToken, codec.dumps(JObj(ocr))),
      (FullTextToken, fullText)]
  }

  /** The replacements applied one after the other, each to every occurrence. */
  function ApplyReplacements(s: string, reps: seq<(string, string)>): string
    requires forall i :: 0 <= i < |reps| ==> |reps[i].0| > 0
    decreases |reps|
  {
    if |reps| == 0 then s
    else Text.ReplaceAll(ApplyReplacements(s, reps[..|reps| - 1]), reps[|reps| - 1].0, reps[|reps| - 1].1)
  }

  /** When no placeholder occurs in the text, the substitution pass leaves it unchanged. */
  lemma {:induction false} ApplyAbsent(s: string, reps: seq<(string, string)>)
    requires forall i :: 0 <= i < |reps| ==> |reps[i].0| > 0
    requires forall i :: 0 <= i < |reps| ==> !Text.Occurs(s, reps[i].0)
    ensures ApplyReplacements(s, reps) == s
    decreases |reps|
  {
    if |reps| > 0 {
      ApplyAbsent(s, reps[..|reps| - 1]);
      Text.ReplaceAbsent(s, reps[|reps| - 1].0, reps[|reps| - 1].1);
    }
  }

  /** The serialised merged payload after the six replacements. */
  function SubstitutedText(payload: Fields, ocr: Fields, filename: Option<string>, config: WebhookConfig,
                           timestamp: string, fullText: string, codec: Codec): string
  {
    ApplyReplacements(codec.dumps(JObj(payload)), Replacements(ocr, filename, config, timestamp, fullText, codec))
  }

  /**
   * `_replace_placeholders`: re-parse the substituted text, or fall back to the
   * payload it was given; the `{{full_text_content}}` value is the segment join
   * alone, whatever `ocr_data["full_text_content"]` holds.
   */
  function Substitute(payload: Fields, ocr: Fields, filename: Option<string>, config: WebhookConfig,
                      timestamp: string, codec: Codec): (r: Result<Json, Error>)
    ensures r.Failure? <==> SegmentTexts(ocr).Failure?
    ensures SegmentTexts(ocr).Success? ==>
      var parsed := codec.loads(SubstitutedText(payload, ocr, filename, config, timestamp, SegmentTexts(ocr).value, codec));
      && (parsed.Some? ==> r == Success(parsed.value))
      && (parsed.None? ==> r == Success(JObj(payload)))
  {
    match SegmentTexts(ocr)
    case Failure(e) => Failure(e)
    case Success(full) =>
      match codec.loads(SubstitutedText(payload, ocr, filename, config, timestamp, full, codec))
      case Some(j) => Success(j)
      case None => Success(JObj(payload))
  }

  /**
   * A payload whose serialisation holds no placeholder comes back as it was,
   * provided the JSON library reads back what it wrote.
   */
  lemma SubstituteWithoutTokens(payload: Fields, ocr: Fields, filename: Option<string>, config: WebhookConfig,
                                timestamp: string, codec: Codec, full: string)
    requires SegmentTexts(ocr) == Success(full)
    requires RoundTrips(codec, JObj(payload))
    requires var text := codec.dumps(JObj(payload));
      && !Text.Occurs(text, FilenameToken) && !Text.Occurs(text, TextCountToken)
      && !Text.Occurs(text, ConfigNameToken) && !Text.Occurs(text, TimestampToken)
      && !Text.Occurs(text, OcrDataToken) && !Text.Occurs(text, FullTextToken)
    ensures Substitute(payload, ocr, filename, config, timestamp, codec) == Success(JObj(payload))
  {
    var reps := Replacements(ocr, filename, config, timestamp, full, codec);
    ApplyAbsent(codec.dumps(JObj(payload)), reps);
  }

  /** One more replacement on top of the ones before it. */
  lemma ApplyStep(s: string, reps: seq<(string, string)>, k: nat)
    requires forall i :: 0 <= i < |reps| ==> |reps[i].0| > 0
    requires k < |reps|
    ensures ApplyReplacements(s, reps[..k + 1]) == Text.ReplaceAll(ApplyReplacements(s, reps[..k]), reps[k].0, reps[k].1)
  {
    assert reps[..k + 1][..k] == reps[..k];
  }

  /**
   * No placeholder can start in `s`, whatever follows it: `s` holds no `{{`
   * and does not end in `{`. JSON punctuation such as a dict's own braces is
   * allowed.
   */
  predicate Plain(s: string)
  {
    forall i :: 0 <= i < |s| && s[i] == '{' ==> i + 1 < |s| && s[i + 1] != '{'
  }

  /** Placeholders open with `{{`. */
  predicate Opens(tok: string)
  {
    |tok| >= 2 && tok[0] == '{' && tok[1] == '{'
  }

  /** Texts that cannot start a placeholder stay so when put side by side. */
  lemma PlainConcat(a: string, b: string)
    requires Plain(a) && Plain(b)
    ensures Plain(a + b)
  {
    var s := a + b;
    forall i | 0 <= i < |s| && s[i] == '{' ensures i + 1 < |s| && s[i + 1] != '{' {
      if i < |a| {
        assert a[i] == '{';
      } else {
        assert b[i - |a|] == '{';
      }
    }
  }

  /** The `tok` pass copies a leading text that cannot start a placeholder. */
  lemma PlainPrefix(pre: string, rest: string, tok: string, v: string)
    requires Plain(pre) && Opens(tok)
    ensures Text.ReplaceAll(pre + rest, tok, v) == pre + Text.ReplaceAll(rest, tok, v)
  {
    var s := pre + rest;
    forall i | 0 <= i < |pre| ensures !Text.MatchAt(s, tok, i) {
      if i + |tok| <= |s| {
        if pre[i] == '{' {
          assert s[i..i + |tok|][1] == pre[i + 1] != tok[1];
        } else {
          assert s[i..i + |tok|][0] == pre[i] != tok[0];
        }
      }
    }
    Text.ReplaceNoMatchPrefix(pre, rest, tok, v);
  }

  /** The `tok` pass leaves a text that cannot start a placeholder as it is. */
  lemma PlainUntouched(t: string, tok: string, v: string)
    requires Plain(t) && Opens(tok)
    ensures Text.ReplaceAll(t, tok, v) == t
  {
    PlainPrefix(t, [], tok, v);
    assert t + [] == t;
  }

  /** The `{{filename}}` pass skips a `{{text_count}}` token, whatever follows it. */
  lemma CountSurvivesFilename(post: string, f: string)
    ensures Text.ReplaceAll(TextCountToken + post, FilenameToken, f) == TextCountToken + Text.ReplaceAll(post, FilenameToken, f)
  {
    var s := TextCountToken + post;
    assert s[2] == 't';
    forall i | 0 <= i < |TextCountToken| ensures !Text.MatchAt(s, FilenameToken, i) {
      if i <= 2 {
        if i + 12 <= |s| {
          assert s[i..i + 12][2 - i] == 't';
        }
      } else if i + 12 <= |s| {
        assert s[i..i + 12][0] == s[i] == TextCountToken[i] != '{';
      }
    }
    Text.ReplaceNoMatchPrefix(TextCountToken, post, FilenameToken, f);
  }

  /**
   * A serialised payload holding `{{filename}}` and later `{{text_count}}`,
   * where no other placeholder can start (not in the text around them, not in
   * the two values), has exactly those two tokens replaced, by the file name
   * (or "unknown") and by `str(ocr_data["text_count"])`; everything else is
   * kept, character for character.
   */
  lemma FilenameAndCount(pre: string, mid: string, post: string, ocr: Fields, filename: Option<string>,
                         config: WebhookConfig, timestamp: string, full: string, codec: Codec)
    requires Plain(pre) && Plain(mid) && Plain(post)
    requires Plain(FilenameOrUnknown(filename))
    requires Plain(PyStr(GetOr(ocr, "text_count", JNum(0)), codec))
    ensures ApplyReplacements(pre + FilenameToken + mid + TextCountToken + post,
                              Replacements(ocr, filename, config, timestamp, full, codec))
            == pre + FilenameOrUnknown(filename) + mid + PyStr(GetOr(ocr, "text_count", JNum(0)), codec) + post
  {
    var reps := Replacements(ocr, filename, config, timestamp, full, codec);
    assert forall i :: 2 <= i < |reps| ==> Opens(reps[i].0);
    TwoTokens(pre, mid, post, FilenameOrUnknown(filename), PyStr(GetOr(ocr, "text_count", JNum(0)), codec), reps);
  }

  /** The lemma above for any replacement list that starts with those two tokens and then has only placeholders. */
  lemma TwoTokens(pre: string, mid: string, post: string, f: string, c: string, reps: seq<(string, string)>)
    requires Plain(pre) && Plain(mid) && Plain(post) && Plain(f) && Plain(c)
    requires |reps| >= 2 && reps[0] == (FilenameToken, f) && reps[1] == (TextCountToken, c)
    requires forall i :: 0 <= i < |reps| ==> |reps[i].0| > 0
    requires forall i :: 2 <= i < |reps| ==> Opens(reps[i].0)
    ensures ApplyReplacements(pre + FilenameToken + mid + TextCountToken + post, reps) == pre + f + mid + c + post
  {
    var s0 := pre + FilenameToken + mid + TextCountToken + post;
    var s1 := pre + f + mid + TextCountToken + post;
    var s2 := pre + f + mid + c + post;
    assert ApplyReplacements(s0, reps[..1]) == s1 by {
      assert reps[..0] == [];
      ApplyStep(s0, reps, 0);
      FilenameReplaced(pre, mid, post, f);
    }
    assert ApplyReplacements(s0, reps[..2]) == s2 by {
      ApplyStep(s0, reps, 1);
      PlainConcat(pre, f);
      PlainConcat(pre + f, mid);
      CountReplaced(pre + f + mid, post, c);
    }
    assert Plain(s2) by {
      PlainConcat(pre, f);
      PlainConcat(pre + f, mid);
      PlainConcat(pre + f + mid, c);
      PlainConcat(pre + f + mid + c, post);
    }
    ApplyRestUntouched(s0, reps, 2, s2);
  }

  /** Once no placeholder can start in the text, the remaining placeholder passes leave it alone. */
  lemma {:induction false} ApplyRestUntouched(s: string, reps: seq<(string, string)>, k: nat, t: string)
    requires forall i :: 0 <= i < |reps| ==> |reps[i].0| > 0
    requires k <= |reps| && ApplyReplacements(s, reps[..k]) == t
    requires forall i :: k <= i < |reps| ==> Opens(reps[i].0)
    requires Plain(t)
    ensures ApplyReplacements(s, reps) == t
    decreases |reps| - k
  {
    if k < |reps| {
      ApplyStep(s, reps, k);
      PlainUntouched(t, reps[k].0, reps[k].1);
      ApplyRestUntouched(s, reps, k + 1, t);
    } else {
      assert reps[..k] == reps;
    }
  }

  /** The `{{filename}}` step of `TwoTokens`. */
  lemma FilenameReplaced(pre: string, mid: string, post: string, f: string)
    requires Plain(pre) && Plain(mid) && Plain(post)
    ensures Text.ReplaceAll(pre + FilenameToken + mid + TextCountToken + post, FilenameToken, f)
            == pre + f + mid + TextCountToken + post
  {
    var tail := TextCountToken + post;
    var rest := mid + tail;
    assert pre + FilenameToken + mid + TextCountToken + post == pre + (FilenameToken + rest);
    assert pre + f + mid + TextCountToken + post == pre + (f + rest);
    calc {
      Text.ReplaceAll(pre + (FilenameToken + rest), FilenameToken, f);
    == { PlainPrefix(pre, FilenameToken + rest, FilenameToken, f); }
      pre + Text.ReplaceAll(FilenameToken + rest, FilenameToken, f);
    == { Text.ReplaceLeading(FilenameToken, rest, f); }
      pre + (f + Text.ReplaceAll(rest, FilenameToken, f));
    == { PlainPrefix(mid, tail, FilenameToken, f); }
      pre + (f + (mid + Text.ReplaceAll(tail, FilenameToken, f)));
    == { CountSurvivesFilename(post, f); PlainUntouched(post, FilenameToken, f); }
      pre + (f + rest);
    }
  }

  /** The `{{text_count}}` step of `TwoTokens`. */
  lemma CountReplaced(x: string, post: string, c: string)
    requires Plain(x) && Plain(post)
    ensures Text.ReplaceAll(x + TextCountToken + post, TextCountToken, c) == x + c + post
  {
    assert x + TextCountToken + post == x + (TextCountToken + post);
    assert x + c + post == x + (c + post);
    calc {
      Text.ReplaceAll(x + (TextCountToken + post), TextCountToken, c);
    == { PlainPrefix(x, TextCountToken + post, TextCountToken, c); }
      x + Text.ReplaceAll(TextCountToken + post, TextCountToken, c);
    == { Text.ReplaceLeading(TextCountToken, post, c); PlainUntouched(post, TextCountToken, c); }
      x + (c + post);
    }
  }

  /**
   * A template `{"note": "File: {{filename}}, count: {{text_count}}"}` merged
   * into the default payload serialises as the default keys (`pre`), then the
   * `note` entry, then whatever follows it (`post`); with file name "a.png"
   * and text count 2 the `note` entry reads `"note": "File: a.png, count: 2"`
   * after the pass and the rest of the text is kept, ready to be parsed back.
   */
  lemma NoteTemplateExample(pre: string, post: string, payload: Fields, ocr: Fields, config: WebhookConfig,
                            timestamp: string, full: string, codec: Codec)
    requires Plain(pre) && Plain(post)
    requires codec.dumps(JObj(payload)) == pre + NoteLead + FilenameToken + NoteMid + TextCountToken + "\"" + post
    requires Get(ocr, "text_count") == Some(JNum(2))
    ensures SubstitutedText(payload, ocr, Some("a.png"), config, timestamp, full, codec)
            == pre + "\"note\": \"File: a.png, count: 2\"" + post
  {
    var count := PyStr(GetOr(ocr, "text_count", JNum(0)), codec);
    assert count == "2" by {
      assert count == Text.IntToString(2);
      assert Text.NatToString(2) == [Text.DigitChar(2)];
    }
    NotePieces();
    PlainConcat(pre, NoteLead);
    PlainConcat("\"", post);
    NoteRegroup(pre, post, FilenameToken, TextCountToken);
    NoteRegroup(pre, post, "a.png", "2");
    FilenameAndCount(pre + NoteLead, NoteMid, "\"" + post, ocr, Some("a.png"), config, timestamp, full, codec);
  }

  /** The `note` entry between the surrounding text, grouped two ways. */
  lemma NoteRegroup(pre: string, post: string, f: string, c: string)
    ensures pre + NoteLead + f + NoteMid + c + "\"" + post == (pre + NoteLead) + f + NoteMid + c + ("\"" + post)
    ensures pre + NoteLead + f + NoteMid + c + "\"" + post == pre + (NoteLead + f + NoteMid + c + "\"") + post
  {
  }

  const NoteLead := "\"note\": \"File: "
  const NoteMid := ", count: "

  /** The literal pieces of the example above. */
  lemma NotePieces()
    ensures Plain(NoteLead) && Plain(NoteMid) && Plain("\"") && Plain("a.png") && Plain("2")
    ensures NoteLead + "a.png" + NoteMid + "2" + "\"" == "\"note\": \"File: a.png, count: 2\""
  {
  }


  // ---------------------------------------------------------------------------
  // The whole payload

  /** `_prepare_payload`. */
  function Payload(config: WebhookConfig, ocr: Fields, filename: Option<string>, stamps: Stamps, codec: Codec): (r: Result<Json, Error>)
    ensures r.Failure? <==> SegmentTexts(ocr).Failure?
    ensures r.Success? && !HasTemplate(config) ==>
      r.value == JObj(DefaultPayload(config, ocr, filename, stamps.payload, PayloadFullText(ocr).value))
    ensures r.Success? && HasTemplate(config) ==>
      var merged := MergedPayload(config, DefaultPayload(config, ocr, filename, stamps.payload, PayloadFullText(ocr).value));
      var parsed := codec.loads(SubstitutedText(merged, ocr, filename, config, stamps.placeholder, SegmentTexts(ocr).value, codec));
      && (parsed.Some? ==> r.value == parsed.value)
      && (parsed.None? ==> r.value == JObj(merged))
  {
    match PayloadFullText(ocr)
    case Failure(e) => Failure(e)
    case Success(fullText) =>
      var default := DefaultPayload(config, ocr, filename, stamps.payload, fullText);
      if HasTemplate(config) then Substitute(MergedPayload(config, default), ocr, filename, config, stamps.placeholder, codec)
      else Success(JObj(default))
  }

  /**
   * Without a template the payload is exactly the default one: its
   * `metadata.config_name` is the configuration's name and its
   * `full_text_content` the segment join (or the caller's text when the join is empty).
   */
  lemma PayloadWithoutTemplate(config: WebhookConfig, ocr: Fields, filename: Option<string>, stamps: Stamps,
                               codec: Codec, fullText: Json)
    requires !HasTemplate(config)
    requires PayloadFullText(ocr) == Success(fullText)
    ensures var p := Payload(config, ocr, filename, stamps, codec);
      && p == Success(JObj(DefaultPayload(config, ocr, filename, stamps.payload, fullText)))
      && Get(p.value.fields, "full_text_content") == Some(fullText)
      && Get(p.value.fields, "source") == Some(JStr(SourceName))
      && Get(p.value.fields, "metadata").Some? && Get(p.value.fields, "metadata").value.JObj?
      && Get(Get(p.value.fields, "metadata").value.fields, "config_name") == Some(JStr(config.name))
      && Get(Get(p.value.fields, "metadata").value.fields, "file_type") == Some(JStr(FileType(filename)))
  {
    var d := DefaultPayload(config, ocr, filename, stamps.payload, fullText);
    GetListed(d, 1);
    GetListed(d, 4);
    GetListed(d, 5);
    var m := d[5].1.fields;
    assert UniqueKeys(m);
    GetListed(m, 1);
    GetListed(m, 3);
  }

  // ---------------------------------------------------------------------------
  // One request

  /** The headers sent: the configuration's, plus `Content-Type: application/json` when that exact key is absent. */
  function RequestHeaders(headers: map<string, string>): (r: map<string, string>)
    ensures "Content-Type" in r
    ensures r["Content-Type"] == if "Content-Type" in headers then headers["Content-Type"] else "application/json"
    ensures forall k :: k in headers ==> k in r && r[k] == headers[k]
    ensures forall k :: k in r && k != "Content-Type" ==> k in headers
  {
    if "Content-Type" in headers then headers else headers["Content-Type" := "application/json"]
  }

  /** The key test is case-sensitive: a lower-case `content-type` does not stop the default being added. */
  lemma HeadersCaseSensitive(value: string)
    ensures RequestHeaders(map["content-type" := value]) ==
      map["content-type" := value, "Content-Type" := "application/json"]
  {
  }

  function BuildRequest(config: WebhookConfig, payload: Json): Request
  {
    Request(config.httpMethod, config.url, RequestHeaders(config.headers), payload, config.timeout)
  }

  /** An attempt succeeds exactly on a 200, 201 or 202 answer; a timeout or any other failure is a failed attempt. */
  predicate AttemptSucceeded(response: Response)
  {
    response.Responded? && response.status in {200, 201, 202}
  }

  // ---------------------------------------------------------------------------
  // Retry with exponential backoff

  /** `2 ** i`, the backoff factor; being at least 1 keeps every wait the sign of the delay. */
  function Pow2(i: nat): (r: nat)
    ensures r >= 1
  {
    if i == 0 then 1 else 2 * Pow2(i - 1)
  }

  /** The index of the first successful attempt, or the number of attempts if none succeeds. */
  function FirstSuccess(v: seq<bool>): (k: nat)
    ensures k <= |v|
  {
    if |v| == 0 then 0 else if v[0] then 0 else 1 + FirstSuccess(v[1..])
  }

  /** `FirstSuccess(v)` is k exactly when every attempt before k fails and attempt k, if made, succeeds. */
  lemma {:induction false} FirstSuccessIs(v: seq<bool>, k: nat)
    requires k <= |v|
    ensures FirstSuccess(v) == k <==> (forall j :: 0 <= j < k ==> !v[j]) && (k < |v| ==> v[k])
  {
    if |v| > 0 && !v[0] && k > 0 {
      var w := v[1..];
      FirstSuccessIs(w, k - 1);
      if forall j :: 0 <= j < k - 1 ==> !w[j] {
        forall j | 0 <= j < k ensures !v[j] {
          if j > 0 {
            assert v[j] == w[j - 1];
          }
        }
      }
      if forall j :: 0 <= j < k ==> !v[j] {
        forall j | 0 <= j < k - 1 ensures !w[j] {
          assert w[j] == v[j + 1];
        }
      }
      if k < |v| {
        assert v[k] == w[k - 1];
      }
    }
  }

  /** The waits after attempts 0 .. m-1: `delay * 2^i` after attempt i. */
  function Backoff(delay: int, m: nat): (w: seq<int>)
    ensures |w| == m
  {
    if m == 0 then [] else Backoff(delay, m - 1) + [delay * Pow2(m - 1)]
  }

  /** The wait after attempt i is `delay * 2^i`. */
  lemma {:induction false} BackoffAt(delay: int, m: nat, i: nat)
    requires i < m
    ensures Backoff(delay, m)[i] == delay * Pow2(i)
  {
    if i < m - 1 {
      BackoffAt(delay, m - 1, i);
    }
  }

  /** The waits logged once `attempt` of the n attempts have failed: none after the last one. */
  function WaitsSoFar(delay: int, attempt: nat, n: nat): seq<int>
  {
    Backoff(delay, if attempt == n && n > 0 then n - 1 else attempt)
  }

  /** A failed attempt adds its backoff wait, unless it was the last one (the retry loop's invariant step). */
  lemma WaitsSoFarStep(delay: int, attempt: nat, n: nat)
    requires attempt < n
    ensures WaitsSoFar(delay, attempt + 1, n) ==
      WaitsSoFar(delay, attempt, n) + (if attempt < n - 1 then [delay * Pow2(attempt)] else [])
  {
  }

  /** What the retry loop does given the verdicts its attempts would get. */
  datatype RetryRun = RetryRun(delivered: bool, attempts: nat, waits: seq<int>)

  /**
   * The retry loop: attempts run until the first success or until the budget
   * (the length of `v`) is spent; attempt i that fails and is not the last is
   * followed by a wait of `delay * 2^i`.
   */
  function Retry(v: seq<bool>, delay: int): (r: RetryRun)
    ensures r.attempts <= |v|
    ensures r.delivered <==> exists i :: 0 <= i < |v| && v[i]
    ensures r.delivered ==> r.attempts > 0 && v[r.attempts - 1]
    ensures forall j :: 0 <= j < r.attempts - 1 ==> !v[j]
    ensures !r.delivered ==> r.attempts == |v|
    ensures r.waits == Backoff(delay, if r.attempts == 0 then 0 else r.attempts - 1)
  {
    var k := FirstSuccess(v);
    FirstSuccessIs(v, k);
    if k < |v| then RetryRun(true, k + 1, Backoff(delay, k))
    else RetryRun(false, |v|, Backoff(delay, if |v| == 0 then 0 else |v| - 1))
  }

  /** A first success at attempt k ends the loop there, after k waits. */
  lemma RetryStopsAt(v: seq<bool>, delay: int, k: nat)
    requires k < |v| && v[k] && forall j :: 0 <= j < k ==> !v[j]
    ensures Retry(v, delay) == RetryRun(true, k + 1, Backoff(delay, k))
  {
    FirstSuccessIs(v, k);
  }

  /** With no success the loop makes every attempt and waits after all but the last. */
  lemma RetryExhausted(v: seq<bool>, delay: int)
    requires forall j :: 0 <= j < |v| ==> !v[j]
    ensures Retry(v, delay) == RetryRun(false, |v|, WaitsSoFar(delay, |v|, |v|))
  {
    FirstSuccessIs(v, |v|);
  }

  function Sum(s: seq<int>): int
  {
    if |s| == 0 then 0 else Sum(s[..|s| - 1]) + s[|s| - 1]
  }

  /** The first m backoff waits add up to `delay * (2^m - 1)`. */
  lemma {:induction false} BackoffTotal(delay: int, m: nat)
    ensures Sum(Backoff(delay, m)) == delay * (Pow2(m) - 1)
  {
    if m > 0 {
      BackoffTotal(delay, m - 1);
      var p := Pow2(m - 1);
      assert Backoff(delay, m)[..m - 1] == Backoff(delay, m - 1);
      assert Sum(Backoff(delay, m)) == delay * (p - 1) + delay * p;
      Distribute(delay, p);
    }
  }

  /** The non-linear step of `BackoffTotal`, kept apart so the solver sees it on its own. */
  lemma Distribute(a: int, b: int)
    ensures a * (b - 1) + a * b == a * (2 * b - 1)
  {
  }

  /** n attempts that all fail wait n-1 times, `delay * (2^(n-1) - 1)` in all. */
  lemma AllAttemptsFail(v: seq<bool>, delay: int)
    requires |v| > 0 && forall i :: 0 <= i < |v| ==> !v[i]
    ensures !Retry(v, delay).delivered && Retry(v, delay).attempts == |v|
    ensures |Retry(v, delay).waits| == |v| - 1
    ensures Sum(Retry(v, delay).waits) == delay * (Pow2(|v| - 1) - 1)
  {
    BackoffTotal(delay, |v| - 1);
  }

  /** With the default policy (3 attempts, delay 1) three failures wait 1 then 2 seconds, and there is no fourth attempt. */
  lemma DefaultPolicyExample()
    ensures Retry([false, false, false], 1) == RetryRun(false, 3, [1, 2])
  {
    assert Pow2(1) == 2;
  }

  /** `range(config.retry_attempts)`: a non-positive count makes no attempt. */
  function AttemptBudget(config: WebhookConfig): nat
  {
    if config.retryAttempts < 0 then 0 else config.retryAttempts
  }

  /** The verdicts the next n requests would get, the first being request number `start`. */
  function Verdicts(reply: nat -> Response, start: nat, n: nat): (v: seq<bool>)
    ensures |v| == n
  {
    if n == 0 then [] else Verdicts(reply, start, n - 1) + [AttemptSucceeded(ReplyAt(reply, start, n - 1))]
  }

  /** Verdict i is whether the answer to request `start + i` is a success. */
  lemma {:induction false} VerdictsAt(reply: nat -> Response, start: nat, n: nat, i: nat)
    requires i < n
    ensures Verdicts(reply, start, n)[i] == AttemptSucceeded(ReplyAt(reply, start, i))
  {
    if i < n - 1 {
      VerdictsAt(reply, start, n - 1, i);
    }
  }

  /** Each verdict is whether the answer to its request is a success. */
  lemma VerdictsMatch(reply: nat -> Response, start: nat, n: nat)
    ensures forall j :: 0 <= j < n ==> Verdicts(reply, start, n)[j] == AttemptSucceeded(ReplyAt(reply, start, j))
  {
    forall j | 0 <= j < n ensures Verdicts(reply, start, n)[j] == AttemptSucceeded(ReplyAt(reply, start, j)) {
      VerdictsAt(reply, start, n, j);
    }
  }

  /** The network's answer to the i-th request counted from request number `start`. */
  function ReplyAt(reply: nat -> Response, start: nat, i: nat): Response
  {
    reply(start + i)
  }

  /** The same request sent n times. */
  function Repeat(request: Request, n: nat): (r: seq<Request>)
    ensures |r| == n && forall i :: 0 <= i < n ==> r[i] == request
  {
    if n == 0 then [] else Repeat(request, n - 1) + [request]
  }

  /** The usable configurations: enabled and with a non-empty URL. */
  predicate Usable(config: WebhookConfig)
  {
    config.enabled && config.url != ""
  }

  /** Everything one configuration's delivery produces. */
  datatype Delivery = Delivery(result: Result<bool, Error>, requests: seq<Request>, waits: seq<int>)

  /**
   * `_send_webhook_with_config`, given what `_prepare_payload` makes of the
   * configuration (it is only consulted for a usable one), the first request
   * going out being request number `start`.
   */
  function Deliver(config: WebhookConfig, payload: Result<Json, Error>, reply: nat -> Response, start: nat): (d: Delivery)
    ensures !config.enabled || config.url == "" ==> d == Delivery(Success(false), [], [])
    ensures |d.requests| <= AttemptBudget(config)
    ensures d.result.Failure? ==> d.requests == [] && d.waits == []
    ensures d.result == Success(true) ==>
      && |d.requests| > 0 && AttemptSucceeded(ReplyAt(reply, start, |d.requests| - 1))
      && forall j: nat :: j < |d.requests| - 1 ==> !AttemptSucceeded(ReplyAt(reply, start, j))
    ensures config.enabled && config.url != "" && d.result == Success(false) ==>
      && |d.requests| == AttemptBudget(config)
      && forall j: nat :: j < |d.requests| ==> !AttemptSucceeded(ReplyAt(reply, start, j))
    ensures forall j :: 0 <= j < |d.requests| ==> payload.Success? && d.requests[j] == BuildRequest(config, payload.value)
    ensures |d.waits| == if |d.requests| == 0 then 0 else |d.requests| - 1
    ensures Usable(config) ==> (d.result.Failure? <==> payload.Failure?)
    ensures Usable(config) && payload.Failure? ==> d.result == Failure(payload.error)
    ensures |d.requests| > 0 ==> d.waits == Backoff(config.retryDelay, |d.requests| - 1)
  {
    if !config.enabled || config.url == "" then Delivery(Success(false), [], [])
    else
      match payload
      case Failure(e) => Delivery(Failure(e), [], [])
      case Success(p) =>
        var v := Verdicts(reply, start, AttemptBudget(config));
        VerdictsMatch(reply, start, AttemptBudget(config));
        var run := Retry(v, config.retryDelay);
        Delivery(Success(run.delivered), Repeat(BuildRequest(config, p), run.attempts), run.waits)
  }

  // ---------------------------------------------------------------------------
  // Dispatch over all active configurations

  /**
   * What serving configuration j does when s requests have gone out before
   * it: `_send_webhook_with_config` with the payload `_prepare_payload` builds
   * for it, configuration j reading the clock as `stamps(j)`.
   */
  function Serving(configs: seq<WebhookConfig>, ocr: Fields, filename: Option<string>, stamps: nat -> Stamps,
                   reply: nat -> Response, codec: Codec): (nat, nat) -> Delivery
  {
    (j: nat, s: nat) =>
      if j < |configs| then Deliver(configs[j], Payload(configs[j], ocr, filename, stamps(j), codec), reply, s)
      else Delivery(Success(false), [], [])
  }

  /**
   * `deliver` is what serving each of `configs` does: entry (j, s) is
   * `_send_webhook_with_config` for configuration j with the payload
   * `_prepare_payload` builds for it, configuration j reading the clock as
   * `stamps(j)` and s requests having gone out before it.
   */
  ghost predicate Serves(configs: seq<WebhookConfig>, deliver: (nat, nat) -> Delivery, ocr: Fields,
                         filename: Option<string>, stamps: nat -> Stamps, reply: nat -> Response, codec: Codec)
  {
    forall j: nat, s: nat {:trigger Deliver(configs[j], Payload(configs[j], ocr, filename, stamps(j), codec), reply, s)} ::
      j < |configs| ==> deliver(j, s) == Deliver(configs[j], Payload(configs[j], ocr, filename, stamps(j), codec), reply, s)
  }

  /** `Serving` is such a function. */
  lemma ServingServes(configs: seq<WebhookConfig>, ocr: Fields, filename: Option<string>, stamps: nat -> Stamps,
                      reply: nat -> Response, codec: Codec)
    ensures Serves(configs, Serving(configs, ocr, filename, stamps, reply, codec), ocr, filename, stamps, reply, codec)
  {
  }

  /**
   * The two facts about one delivery the dispatch lemmas rely on: an unusable
   * configuration sends nothing and reports False, and no configuration sends
   * more than its attempt count.
   */
  ghost predicate Respects(configs: seq<WebhookConfig>, deliver: (nat, nat) -> Delivery)
  {
    forall j: nat, s: nat :: j < |configs| ==>
      && (!Usable(configs[j]) ==> deliver(j, s) == Delivery(Success(false), [], []))
      && |deliver(j, s).requests| <= AttemptBudget(configs[j])
  }

  /** `_send_webhook_with_config` respects its configurations. */
  lemma ServesRespects(configs: seq<WebhookConfig>, deliver: (nat, nat) -> Delivery, ocr: Fields,
                       filename: Option<string>, stamps: nat -> Stamps, reply: nat -> Response, codec: Codec)
    requires Serves(configs, deliver, ocr, filename, stamps, reply, codec)
    ensures Respects(configs, deliver)
  {
    forall j: nat, s: nat | j < |configs|
      ensures !Usable(configs[j]) ==> deliver(j, s) == Delivery(Success(false), [], [])
      ensures |deliver(j, s).requests| <= AttemptBudget(configs[j])
    {
      var d := Deliver(configs[j], Payload(configs[j], ocr, filename, stamps(j), codec), reply, s);
    }
  }

  /** The record for one configuration: its result, or `success: False` with the error it raised. */
  function OutcomeOf(config: WebhookConfig, result: Result<bool, Error>, timestamp: string): (r: Outcome)
    ensures r.configId == config.id && r.configName == config.name && r.url == config.url
    ensures r.timestamp == timestamp
    ensures r.success <==> result == Success(true)
    ensures r.error == if result.Failure? then Some(result.error) else None
  {
    match result
    case Success(b) => Outcome(config.id, config.name, config.url, b, None, timestamp)
    case Failure(e) => Outcome(config.id, config.name, config.url, false, Some(e), timestamp)
  }

  /** Everything a dispatch produces. */
  datatype DispatchRun = DispatchRun(outcomes: seq<Outcome>, requests: seq<Request>, waits: seq<int>)

  /**
   * The loop of `send_ocr_result` over the first n of `configs`, the first
   * request going out being request number `start`: configuration i is served
   * by `deliver(i, s)` once s requests have gone out, and stamps its outcome
   * with `stamps(i).outcome`.
   */
  function Dispatch(configs: seq<WebhookConfig>, deliver: (nat, nat) -> Delivery, stamps: nat -> Stamps,
                    start: nat, n: nat): (r: DispatchRun)
    requires n <= |configs|
    ensures |r.outcomes| == n
  {
    if n == 0 then DispatchRun([], [], [])
    else
      var prev := Dispatch(configs, deliver, stamps, start, n - 1);
      var d := deliver(n - 1, start + |prev.requests|);
      DispatchRun(prev.outcomes + [OutcomeOf(configs[n - 1], d.result, stamps(n - 1).outcome)],
                  prev.requests + d.requests, prev.waits + d.waits)
  }

  /** One step of the dispatch loop: configuration i's delivery starts where the earlier ones stopped, and its traffic is appended to the logs. */
  lemma DispatchExtend(configs: seq<WebhookConfig>, deliver: (nat, nat) -> Delivery, stamps: nat -> Stamps,
                       sent0: seq<Request>, waits0: seq<int>, i: nat, run: DispatchRun)
    requires i < |configs| && run == Dispatch(configs, deliver, stamps, |sent0|, i)
    ensures var d := deliver(i, |sent0| + |run.requests|);
      var next := Dispatch(configs, deliver, stamps, |sent0|, i + 1);
      && next.outcomes == run.outcomes + [OutcomeOf(configs[i], d.result, stamps(i).outcome)]
      && sent0 + next.requests == sent0 + run.requests + d.requests
      && waits0 + next.waits == waits0 + run.waits + d.waits
  {
    var d := deliver(i, |sent0| + |run.requests|);
    var next := Dispatch(configs, deliver, stamps, |sent0|, i + 1);
    assert next == DispatchRun(run.outcomes + [OutcomeOf(configs[i], d.result, stamps(i).outcome)],
                               run.requests + d.requests, run.waits + d.waits);
    Text.AppendAssoc(sent0, run.requests, d.requests);
    Text.AppendAssoc(waits0, run.waits, d.waits);
  }

  /**
   * Outcome j is configuration j's own delivery, which starts after the
   * requests of the configurations before it and depends on them in no other way.
   */
  lemma {:induction false} DispatchOutcomeAt(configs: seq<WebhookConfig>, deliver: (nat, nat) -> Delivery,
                                             stamps: nat -> Stamps, start: nat, n: nat, j: nat)
    requires j < n <= |configs|
    ensures var before := Dispatch(configs, deliver, stamps, start, j);
      Dispatch(configs, deliver, stamps, start, n).outcomes[j] ==
        OutcomeOf(configs[j], deliver(j, start + |before.requests|).result, stamps(j).outcome)
  {
    var prev := Dispatch(configs, deliver, stamps, start, n - 1);
    var out := Dispatch(configs, deliver, stamps, start, n).outcomes;
    assert out == prev.outcomes + [OutcomeOf(configs[n - 1], deliver(n - 1, start + |prev.requests|).result,
                                             stamps(n - 1).outcome)];
    if j < n - 1 {
      DispatchOutcomeAt(configs, deliver, stamps, start, n - 1, j);
      assert out[j] == prev.outcomes[j];
    }
  }

  /**
   * What the record of one configuration says: it names the configuration,
   * carries the given timestamp, reports an error only as a failure, and
   * reports success only for a usable configuration.
   */
  predicate Reports(o: Outcome, config: WebhookConfig, timestamp: string)
  {
    && o.configId == config.id && o.configName == config.name && o.url == config.url
    && o.timestamp == timestamp
    && (o.error.Some? ==> !o.success)
    && (o.success ==> Usable(config))
  }

  /**
   * Exactly one outcome per configuration, in configuration order, each
   * reporting on its own configuration; an error does not stop the later
   * configurations.
   */
  lemma DispatchOutcomes(configs: seq<WebhookConfig>, deliver: (nat, nat) -> Delivery, stamps: nat -> Stamps,
                         start: nat, n: nat)
    requires Respects(configs, deliver) && n <= |configs|
    ensures var out := Dispatch(configs, deliver, stamps, start, n).outcomes;
      && |out| == n
      && forall j :: 0 <= j < n ==> Reports(out[j], configs[j], stamps(j).outcome)
  {
    forall j | 0 <= j < n
      ensures Reports(Dispatch(configs, deliver, stamps, start, n).outcomes[j], configs[j], stamps(j).outcome)
    {
      var before := Dispatch(configs, deliver, stamps, start, j);
      var d := deliver(j, start + |before.requests|);
      DispatchOutcomeAt(configs, deliver, stamps, start, n, j);
      assert !Usable(configs[j]) ==> d.result == Success(false);
    }
  }

  /** The run over the first k configurations is a prefix of the run over the first n. */
  lemma {:induction false} DispatchPrefix(configs: seq<WebhookConfig>, deliver: (nat, nat) -> Delivery,
                                          stamps: nat -> Stamps, start: nat, k: nat, n: nat)
    requires k <= n <= |configs|
    ensures var all := Dispatch(configs, deliver, stamps, start, n);
      var pre := Dispatch(configs, deliver, stamps, start, k);
      && pre.outcomes <= all.outcomes && pre.requests <= all.requests && pre.waits <= all.waits
  {
    if k < n {
      DispatchPrefix(configs, deliver, stamps, start, k, n - 1);
    }
  }

  /** A dispatch in which no configuration is usable sends nothing, waits for nothing and succeeds nowhere. */
  lemma {:induction false} DispatchNothingUsable(configs: seq<WebhookConfig>, deliver: (nat, nat) -> Delivery,
                                                 stamps: nat -> Stamps, start: nat, n: nat)
    requires Respects(configs, deliver) && n <= |configs|
    requires forall j :: 0 <= j < |configs| ==> !Usable(configs[j])
    ensures var run := Dispatch(configs, deliver, stamps, start, n);
      run.requests == [] && run.waits == [] && forall j :: 0 <= j < |run.outcomes| ==> !run.outcomes[j].success
  {
    if n > 0 {
      DispatchNothingUsable(configs, deliver, stamps, start, n - 1);
    }
  }

  /** The total retry budget of a list of configurations. */
  function TotalBudget(configs: seq<WebhookConfig>): nat
  {
    if |configs| == 0 then 0 else TotalBudget(configs[..|configs| - 1]) + AttemptBudget(configs[|configs| - 1])
  }

  /** A dispatch never sends more requests than the configurations' attempt counts add up to. */
  lemma {:induction false} DispatchRequestsBounded(configs: seq<WebhookConfig>, deliver: (nat, nat) -> Delivery,
                                                   stamps: nat -> Stamps, start: nat, n: nat)
    requires Respects(configs, deliver) && n <= |configs|
    ensures |Dispatch(configs, deliver, stamps, start, n).requests| <= TotalBudget(configs[..n])
  {
    if n > 0 {
      DispatchRequestsBounded(configs, deliver, stamps, start, n - 1);
      assert configs[..n][..n - 1] == configs[..n - 1];
    }
  }

  // ---------------------------------------------------------------------------
  // Status summaries

  /** `[config.url for config in active_configs if config.url]`. */
  function NonEmptyUrls(configs: seq<WebhookConfig>): (r: seq<string>)
    ensures |r| <= |configs|
    ensures forall i :: 0 <= i < |r| ==> r[i] != ""
    ensures forall j :: 0 <= j < |configs| && configs[j].url != "" ==> configs[j].url in r
    ensures forall i :: 0 <= i < |r| ==> exists j :: 0 <= j < |configs| && configs[j].url == r[i]
    ensures |configs| == 1 ==> r == if configs[0].url != "" then [configs[0].url] else []
  {
    if |configs| == 0 then []
    else
      var init := configs[..|configs| - 1];
      var last := configs[|configs| - 1];
      var prev := NonEmptyUrls(init);
      assert forall i :: 0 <= i < |prev| ==> exists j :: 0 <= j < |init| && init[j].url == prev[i];
      prev + (if last.url != "" then [last.url] else [])
  }

  /**
   * The URLs keep the configurations' order: listing two runs of
   * configurations one after the other lists their URLs one after the other.
   */
  lemma {:induction false} NonEmptyUrlsAppend(a: seq<WebhookConfig>, b: seq<WebhookConfig>)
    ensures NonEmptyUrls(a + b) == NonEmptyUrls(a) + NonEmptyUrls(b)
    decreases |b|
  {
    if |b| > 0 {
      var init := b[..|b| - 1];
      assert (a + b)[..|a + b| - 1] == a + init;
      NonEmptyUrlsAppend(a, init);
    } else {
      assert a + b == a;
    }
  }

  /** `any(config.enabled and config.url for config in configs)`. */
  function AnyUsable(configs: seq<WebhookConfig>): (b: bool)
    ensures b <==> exists j :: 0 <= j < |configs| && Usable(configs[j])
  {
    if |configs| == 0 then false
    else
      var init := configs[..|configs| - 1];
      assert forall j :: 0 <= j < |init| ==> init[j] == configs[j];
      AnyUsable(init) || Usable(configs[|configs| - 1])
  }

  // ---------------------------------------------------------------------------
  // The network

  /** The HTTP side of the world: it answers the k-th request with `reply(k)` and logs requests and waits. */
  class Transport {
    const reply: nat -> Response
    var sent: seq<Request>
    ghost var waits: seq<int>

    constructor (reply: nat -> Response)
      ensures this.reply == reply && sent == [] && waits == []
    {
      this.reply := reply;
      sent := [];
      waits := [];
    }

    /** Issue one request and receive the network's answer to it. */
    method Send(request: Request) returns (response: Response)
      modifies this
      ensures response == reply(|old(sent)|)
      ensures sent == old(sent) + [request] && waits == old(waits)
    {
      response := reply(|sent|);
      sent := sent + [request];
    }

    /** `asyncio.sleep(seconds)`. */
    method Sleep(seconds: int)
      modifies this
      ensures waits == old(waits) + [seconds] && sent == old(sent)
    {
      waits := waits + [seconds];
    }
  }

  // ---------------------------------------------------------------------------
  // The service

  class WebhookService {
    const store: ConfigStore
    const codec: Codec
    const transport: Transport

    constructor (store: ConfigStore, codec: Codec, transport: Transport)
      ensures this.store == store && this.transport == transport && this.codec == codec
    {
      this.store := store;
      this.codec := codec;
      this.transport := transport;
    }

    /** The segment loop shared by `_prepare_payload` and `_replace_placeholders`. */
    method CombineSegmentTexts(ocr: Fields) returns (r: Result<string, Error>)
      ensures r == SegmentTexts(ocr)
    {
      r := Success("");
      if HasKey(ocr, "results") && Truthy(Get(ocr, "results").value) {
        match Get(ocr, "results").value {
          case JArr(items) =>
            var parts: seq<Json> := [];
            for i := 0 to |items|
              invariant parts == TextParts(items[..i])
            {
              var item := items[i];
              if item.JObj? && HasKey(item.fields, "text") {
                parts := parts + [Get(item.fields, "text").value];
              }
              assert items[..i + 1][..i] == items[..i];
            }
            assert items[..|items|] == items;
            r := JoinTexts(parts);
          case JStr(_) =>
          case JObj(_) =>
          case _ =>
            r := Failure(ResultsNotIterable);
        }
      }
    }

    /** `_replace_placeholders`: serialise, replace the six tokens in order, parse back or fall back. */
    method ReplacePlaceholders(payload: Fields, ocr: Fields, filename: Option<string>, config: WebhookConfig,
                               timestamp: string) returns (r: Result<Json, Error>)
      ensures r == Substitute(payload, ocr, filename, config, timestamp, codec)
    {
      var full := CombineSegmentTexts(ocr);
      if full.Failure? {
        return Failure(full.error);
      }
      var text := codec.dumps(JObj(payload));
      var reps := Replacements(ocr, filename, config, timestamp, full.value, codec);
      for i := 0 to |reps|
        invariant text == ApplyReplacements(codec.dumps(JObj(payload)), reps[..i])
      {
        assert reps[..i + 1][..i] == reps[..i];
        text := Text.ReplaceAll(text, reps[i].0, reps[i].1);
      }
      assert reps[..|reps|] == reps;
      match codec.loads(text) {
        case Some(j) => r := Success(j);
        case None => r := Success(JObj(payload));
      }
    }

    /** `_prepare_payload`: full text, default payload, then template merge and substitution if there is a template. */
    method PreparePayload(config: WebhookConfig, ocr: Fields, filename: Option<string>, stamps: Stamps)
      returns (r: Result<Json, Error>)
      ensures r == Payload(config, ocr, filename, stamps, codec)
    {
      var joined := CombineSegmentTexts(ocr);
      if joined.Failure? {
        return Failure(joined.error);
      }
      var fullText := JStr(joined.value);
      if joined.value == "" && HasKey(ocr, "full_text_content") {
        fullText := Get(ocr, "full_text_content").value;
      }
      var default := DefaultPayload(config, ocr, filename, stamps.payload, fullText);
      if HasTemplate(config) {
        var merged := Update(default, config.payloadTemplate.value);
        r := ReplacePlaceholders(merged, ocr, filename, config, stamps.placeholder);
      } else {
        r := Success(JObj(default));
      }
    }

    /** `_send_webhook_request`: one request with the defaulted headers; success on 200, 201 or 202. */
    method SendRequest(config: WebhookConfig, payload: Json) returns (ok: bool)
      modifies transport
      ensures transport.sent == old(transport.sent) + [BuildRequest(config, payload)]
      ensures transport.waits == old(transport.waits)
      ensures ok == AttemptSucceeded(transport.reply(|old(transport.sent)|))
    {
      var headers := RequestHeaders(config.headers);
      var response := transport.Send(Request(config.httpMethod, config.url, headers, payload, config.timeout));
      ok := AttemptSucceeded(response);
    }

    /** `_send_webhook_with_config`: the early refusal, then the retry loop with backoff. */
    method SendWithConfig(config: WebhookConfig, ocr: Fields, filename: Option<string>, stamps: Stamps)
      returns (r: Result<bool, Error>)
      modifies transport
      ensures var d := Deliver(config, Payload(config, ocr, filename, stamps, codec), transport.reply, |old(transport.sent)|);
        && r == d.result
        && transport.sent == old(transport.sent) + d.requests
        && transport.waits == old(transport.waits) + d.waits
    {
      if !config.enabled || config.url == "" {
        return Success(false);
      }
      var payload := PreparePayload(config, ocr, filename, stamps);
      if payload.Failure? {
        return Failure(payload.error);
      }
      var delivered := SendWithRetries(config, payload.value);
      return Success(delivered);
    }

    /**
     * The retry loop of `_send_webhook_with_config`: up to `retry_attempts`
     * requests, stopping at the first success, with a wait of `retry_delay * 2^i`
     * after each failed attempt i that is not the last.
     */
    method SendWithRetries(config: WebhookConfig, p: Json) returns (delivered: bool)
      modifies transport
      ensures var run := Retry(Verdicts(transport.reply, |old(transport.sent)|, AttemptBudget(config)), config.retryDelay);
        && delivered == run.delivered
        && transport.sent == old(transport.sent) + Repeat(BuildRequest(config, p), run.attempts)
        && transport.waits == old(transport.waits) + run.waits
    {
      var n := AttemptBudget(config);
      ghost var v := Verdicts(transport.reply, |transport.sent|, n);
      ghost var sent0, waits0 := transport.sent, transport.waits;
      var request := BuildRequest(config, p);
      for attempt := 0 to n
        invariant forall j :: 0 <= j < attempt ==> !v[j]
        invariant transport.sent == sent0 + Repeat(request, attempt)
        invariant transport.waits == waits0 + WaitsSoFar(config.retryDelay, attempt, n)
      {
        VerdictsAt(transport.reply, |sent0|, n, attempt);
        var ok := SendRequest(config, p);
        Text.AppendAssoc(sent0, Repeat(request, attempt), [request]);
        if ok {
          RetryStopsAt(v, config.retryDelay, attempt);
          return true;
        }
        if attempt < n - 1 {
          transport.Sleep(config.retryDelay * Pow2(attempt));
        }
        WaitsSoFarStep(config.retryDelay, attempt, n);
        Text.AppendAssoc(waits0, WaitsSoFar(config.retryDelay, attempt, n),
                    if attempt < n - 1 then [config.retryDelay * Pow2(attempt)] else []);
      }
      RetryExhausted(v, config.retryDelay);
      return false;
    }

    /** Configuration i of `configs` served by `_send_webhook_with_config`, as `deliver` describes it. */
    method Serve(configs: seq<WebhookConfig>, ocr: Fields, filename: Option<string>, stamps: nat -> Stamps, i: nat,
                 ghost deliver: (nat, nat) -> Delivery)
      returns (r: Result<bool, Error>)
      requires i < |configs| && Serves(configs, deliver, ocr, filename, stamps, transport.reply, codec)
      modifies transport
      ensures var d := deliver(i, |old(transport.sent)|);
        && r == d.result
        && transport.sent == old(transport.sent) + d.requests
        && transport.waits == old(transport.waits) + d.waits
    {
      r := SendWithConfig(configs[i], ocr, filename, stamps(i));
    }

    /**
     * One pass of the loop of `send_ocr_result`: configuration i is served
     * after the requests of the configurations before it, and the run so far
     * is extended by its delivery.
     */
    method ServeConfig(configs: seq<WebhookConfig>, ocr: Fields, filename: Option<string>, stamps: nat -> Stamps,
                       i: nat, ghost deliver: (nat, nat) -> Delivery, ghost run: DispatchRun,
                       ghost sent0: seq<Request>, ghost waits0: seq<int>)
      returns (outcome: Outcome, ghost next: DispatchRun)
      requires i < |configs| && Serves(configs, deliver, ocr, filename, stamps, transport.reply, codec)
      requires run == Dispatch(configs, deliver, stamps, |sent0|, i)
      requires transport.sent == sent0 + run.requests && transport.waits == waits0 + run.waits
      modifies transport
      ensures next == Dispatch(configs, deliver, stamps, |sent0|, i + 1)
      ensures next.outcomes == run.outcomes + [outcome]
      ensures transport.sent == sent0 + next.requests && transport.waits == waits0 + next.waits
    {
      DispatchExtend(configs, deliver, stamps, sent0, waits0, i, run);
      var success := Serve(configs, ocr, filename, stamps, i, deliver);
      outcome := OutcomeOf(configs[i], success, stamps(i).outcome);
      next := Dispatch(configs, deliver, stamps, |sent0|, i + 1);
    }

    /** `send_ocr_result`: one outcome per active configuration, errors recorded rather than raised. */
    method SendOcrResult(ocr: Fields, filename: Option<string>, stamps: nat -> Stamps)
      returns (r: Result<seq<Outcome>, Error>)
      modifies transport
      ensures !store.reachable ==> r == Failure(StoreUnavailable) && unchanged(transport)
      ensures store.reachable ==>
        var run := Dispatch(store.active, Serving(store.active, ocr, filename, stamps, transport.reply, codec), stamps,
                            |old(transport.sent)|, |store.active|);
        && r == Success(run.outcomes)
        && transport.sent == old(transport.sent) + run.requests
        && transport.waits == old(transport.waits) + run.waits
    {
      if !store.reachable {
        return Failure(StoreUnavailable);
      }
      var active := store.active;
      ghost var sent0, waits0 := transport.sent, transport.waits;
      ghost var deliver := Serving(active, ocr, filename, stamps, transport.reply, codec);
      ServingServes(active, ocr, filename, stamps, transport.reply, codec);
      ghost var run := DispatchRun([], [], []);
      var results: seq<Outcome> := [];
      for i := 0 to |active|
        invariant run == Dispatch(active, deliver, stamps, |sent0|, i)
        invariant results == run.outcomes
        invariant transport.sent == sent0 + run.requests
        invariant transport.waits == waits0 + run.waits
      {
        var outcome;
        outcome, run := ServeConfig(active, ocr, filename, stamps, i, deliver, run, sent0, waits0);
        results := results + [outcome];
      }
      return Success(results);
    }

    /** `get_webhook_status`: the store's counts, whether any configuration is active, and the active URLs. */
    function GetWebhookStatus(): (r: Result<WebhookStatus, Error>)
      ensures r.Failure? <==> !store.reachable
      ensures r.Success? ==>
        && (r.value.enabled <==> store.summary.active > 0)
        && r.value.totalConfigurations == store.summary.total
        && r.value.activeConfigurations == store.summary.active
        && r.value.disabledConfigurations == store.summary.disabled
        && r.value.lastUpdated == store.summary.lastUpdated
        && r.value.activeUrls == NonEmptyUrls(store.active)
        && forall u :: u in r.value.activeUrls <==> u != "" && exists j :: 0 <= j < |store.active| && store.active[j].url == u
    {
      if !store.reachable then Failure(StoreUnavailable)
      else
        var s := store.summary;
        Success(WebhookStatus(s.active > 0, s.total, s.active, s.disabled, s.lastUpdated, NonEmptyUrls(store.active)))
    }

    /** `is_configured`: some active configuration is enabled and has a URL. */
    function IsConfigured(): (r: Result<bool, Error>)
      ensures r.Failure? <==> !store.reachable
      ensures r.Success? ==> (r.value <==> exists j :: 0 <= j < |store.active| && Usable(store.active[j]))
    {
      if !store.reachable then Failure(StoreUnavailable) else Success(AnyUsable(store.active))
    }

    /**
     * `send_ocr_result` as specified above reports on every active
     * configuration in order, and sends no more than their attempt counts.
     */
    lemma DispatchReports(ocr: Fields, filename: Option<string>, stamps: nat -> Stamps, start: nat)
      requires store.reachable
      ensures var run := Dispatch(store.active, Serving(store.active, ocr, filename, stamps, transport.reply, codec),
                                  stamps, start, |store.active|);
        && |run.outcomes| == |store.active|
        && (forall j :: 0 <= j < |store.active| ==> Reports(run.outcomes[j], store.active[j], stamps(j).outcome))
        && |run.requests| <= TotalBudget(store.active)
    {
      var deliver := Serving(store.active, ocr, filename, stamps, transport.reply, codec);
      ServingServes(store.active, ocr, filename, stamps, transport.reply, codec);
      ServesRespects(store.active, deliver, ocr, filename, stamps, transport.reply, codec);
      DispatchOutcomes(store.active, deliver, stamps, start, |store.active|);
      DispatchRequestsBounded(store.active, deliver, stamps, start, |store.active|);
      assert store.active[..|store.active|] == store.active;
    }

    /** A configured service lists at least one active URL, and an unconfigured one makes no request when dispatching. */
    lemma ConfiguredAgreement(ocr: Fields, filename: Option<string>, stamps: nat -> Stamps, start: nat)
      requires store.reachable
      ensures IsConfigured() == Success(true) ==> |GetWebhookStatus().value.activeUrls| > 0
      ensures IsConfigured() == Success(false) ==>
        Dispatch(store.active, Serving(store.active, ocr, filename, stamps, transport.reply, codec), stamps, start,
                 |store.active|).requests == []
    {
      if IsConfigured() == Success(true) {
        var j :| 0 <= j < |store.active| && Usable(store.active[j]);
        assert store.active[j].url in GetWebhookStatus().value.activeUrls;
      }
      if IsConfigured() == Success(false) {
        ServingServes(store.active, ocr, filename, stamps, transport.reply, codec);
        ServesRespects(store.active, Serving(store.active, ocr, filename, stamps, transport.reply, codec), ocr, filename,
                       stamps, transport.reply, codec);
        DispatchNothingUsable(store.active, Serving(store.active, ocr, filename, stamps, transport.reply, codec), stamps,
                              start, |store.active|);
      }
    }
  }
}
