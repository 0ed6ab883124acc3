/**
 * `PushoverNotifier.notifyNewShowings`: the credential guard, the title, the message body,
 * the ordered form fields and the form-encoded request body. URL encoding is a parameter and
 * the HTTP POST is reduced to whether it throws.
 */
module Pushover {
  import opened Common
  import opened Text
  import opened Rows

  /** The `notify.pushover` settings; every field is optional. */
  datatype PushoverConfig = PushoverConfig(token: Option<string>, user: Option<string>, device: Option<string>, sound: Option<string>)

  /** One form field, key and value. */
  type Field = (string, string)

  /** What one call does: skip for missing credentials, or post `body`, which either completes or throws (and is caught). */
  datatype PushOutcome = Skipped | Sent(body: string) | SendFailed(body: string)

  const TitlePrefix := "New Rently showing(s): "
  const UrlTitle := "Open Rently Activity Log"
  /** How many rows the message lists before summarising the rest. */
  const MaxLines := 5

  /** `props.token?.trim().orEmpty()`. */
  function TrimmedOrEmpty(o: Option<string>): string {
    if o.Some? then Trim(o.value) else ""
  }

  lemma TrimmedOrEmptyBlank(o: Option<string>)
    ensures IsBlank(TrimmedOrEmpty(o)) <==> o.None? || IsBlank(o.value)
    ensures IsBlank(TrimmedOrEmpty(o)) <==> |TrimmedOrEmpty(o)| == 0
  {
    if o.Some? { TrimBlank(o.value); }
  }

  /** The credential guard: the trimmed token and user, or None when either is missing or blank. */
  function Credentials(cfg: PushoverConfig): (c: Option<(string, string)>)
    ensures c.None? <==> cfg.token.None? || IsBlank(cfg.token.value) || cfg.user.None? || IsBlank(cfg.user.value)
    ensures c.Some? ==> c.value == (Trim(cfg.token.value), Trim(cfg.user.value)) && |c.value.0| > 0 && |c.value.1| > 0
  {
    var token, user := TrimmedOrEmpty(cfg.token), TrimmedOrEmpty(cfg.user);
    TrimmedOrEmptyBlank(cfg.token);
    TrimmedOrEmptyBlank(cfg.user);
    if IsBlank(token) || IsBlank(user) then None else Some((token, user))
  }

  /** The title: the fixed prefix followed by the batch size in decimal. */
  function Title(n: nat): (t: string)
    ensures |t| > |TitlePrefix| && t[..|TitlePrefix|] == TitlePrefix
    ensures forall k :: |TitlePrefix| <= k < |t| ==> IsDigit(t[k])
    ensures DigitsValue(t[|TitlePrefix|..]) == n
    ensures |t| > |TitlePrefix| + 1 ==> t[|TitlePrefix|] != '0'
  {
    NatToStringValue(n);
    var t := TitlePrefix + NatToString(n);
    assert t[|TitlePrefix|..] == NatToString(n);
    t
  }

  /** How one row is shown in the message: raw name, date and source, without feedback. */
  function Line(s: ShowingRow): string {
    s.name + " | " + s.showingDate + " | " + s.source
  }

  function Lines(rows: seq<ShowingRow>): seq<string> {
    seq(|rows|, i requires 0 <= i < |rows| => Line(rows[i]))
  }

  /** `newShowings.take(5)`. */
  function Shown(batch: seq<ShowingRow>): seq<ShowingRow> {
    if |batch| <= MaxLines then batch else batch[..MaxLines]
  }

  /** The summary line for the rows left out, without its leading newline. */
  function MoreLine(rest: nat): string {
    "\U{2026} +" + NatToString(rest) + " more"
  }

  /** The message: the shown rows' lines separated by newlines, then a newline and the summary when rows were left out. */
  function Message(batch: seq<ShowingRow>): string {
    Join(Lines(Shown(batch)), "\n") + (if |batch| > MaxLines then "\n" + MoreLine(|batch| - MaxLines) else "")
  }

  /** The `buildString` block: appends a newline before every line but the first, then the summary. */
  method BuildMessage(batch: seq<ShowingRow>) returns (message: string)
    ensures message == Message(batch)
  {
    message := "";
    var shown := Shown(batch);
    for idx := 0 to |shown|
      invariant message == Join(Lines(shown[..idx]), "\n")
    {
      assert Lines(shown[..idx + 1]) == Lines(shown[..idx]) + [Line(shown[idx])];
      if idx > 0 {
        JoinSnoc(Lines(shown[..idx]), Line(shown[idx]), "\n");
        message := message + "\n";
      }
      message := message + Line(shown[idx]);
    }
    assert shown[..|shown|] == shown;
    if |batch| > MaxLines {
      message := message + "\n" + MoreLine(|batch| - MaxLines);
    }
  }

  /** An empty batch gives an empty message. */
  lemma MessageOfEmptyBatch()
    ensures Message([]) == ""
  {
  }

  /**
   * When no shown line contains a newline, the message's lines are the first `min(5, n)` rows'
   * lines in batch order, followed by `… +K more` exactly when `K = n - 5` rows were left out.
   */
  lemma MessageLines(batch: seq<ShowingRow>)
    requires |batch| > 0
    requires forall i :: 0 <= i < |Shown(batch)| ==> '\n' !in Line(Shown(batch)[i])
    ensures |Shown(batch)| == if |batch| <= 5 then |batch| else 5
    ensures Split(Message(batch), '\n') ==
      Lines(Shown(batch)) + if |batch| > MaxLines then [MoreLine(|batch| - MaxLines)] else []
  {
    var lines := Lines(Shown(batch));
    if |batch| > MaxLines {
      var digits := NatToString(|batch| - MaxLines);
      var more := MoreLine(|batch| - MaxLines);
      assert '\n' !in more by {
        assert more == "\U{2026} +" + digits + " more";
        assert '\n' !in digits by {
          forall k | 0 <= k < |digits| ensures digits[k] != '\n' { assert IsDigit(digits[k]); }
        }
      }
      JoinSnoc(lines, more, "\n");
      assert Message(batch) == Join(lines + [more], "\n");
      SplitJoin(lines + [more], '\n');
    } else {
      assert Message(batch) == Join(lines, "\n");
      SplitJoin(lines, '\n');
    }
  }

  /**
   * `LinkedHashMap.put`: a present key keeps its position and takes the new value; a new key
   * goes at the end.
   */
  function Put(fields: seq<Field>, k: string, v: string): seq<Field>
  {
    if |fields| == 0 then [(k, v)]
    else if fields[0].0 == k then [(k, v)] + fields[1..]
    else [fields[0]] + Put(fields[1..], k, v)
  }

  function Keys(fields: seq<Field>): seq<string> {
    seq(|fields|, i requires 0 <= i < |fields| => fields[i].0)
  }

  /** Putting a key that is not yet present appends the pair. */
  lemma {:induction false} PutNewKey(fields: seq<Field>, k: string, v: string)
    requires k !in Keys(fields)
    ensures Put(fields, k, v) == fields + [(k, v)]
  {
    if |fields| > 0 {
      assert fields[0].0 == Keys(fields)[0];
      assert Keys(fields[1..]) == Keys(fields)[1..];
      PutNewKey(fields[1..], k, v);
    }
  }

  /** The form fields in insertion order: the four required ones, then each optional one whose trimmed value is non-empty. */
  function FormFields(token: string, user: string, title: string, message: string,
                      url: string, device: Option<string>, sound: Option<string>): seq<Field>
  {
    [("token", token), ("user", user), ("title", title), ("message", message)]
    + (if TrimmedNonEmpty(Some(url)).Some? then [("url", Trim(url)), ("url_title", UrlTitle)] else [])
    + (if TrimmedNonEmpty(device).Some? then [("device", TrimmedNonEmpty(device).value)] else [])
    + (if TrimmedNonEmpty(sound).Some? then [("sound", TrimmedNonEmpty(sound).value)] else [])
  }

  /** The `body` map: built with `linkedMapOf` and extended in place by the optional fields. */
  method BuildForm(token: string, user: string, title: string, message: string,
                   url: string, device: Option<string>, sound: Option<string>) returns (body: seq<Field>)
    ensures body == FormFields(token, user, title, message, url, device, sound)
  {
    body := [("token", token), ("user", user), ("title", title), ("message", message)];
    var link := TrimmedNonEmpty(Some(url));
    if link.Some? {
      PutNewKey(body, "url", link.value);
      body := Put(body, "url", link.value);
      PutNewKey(body, "url_title", UrlTitle);
      body := Put(body, "url_title", UrlTitle);
    }
    var dev := TrimmedNonEmpty(device);
    if dev.Some? {
      assert "device" !in Keys(body);
      PutNewKey(body, "device", dev.value);
      body := Put(body, "device", dev.value);
    }
    var snd := TrimmedNonEmpty(sound);
    if snd.Some? {
      assert "sound" !in Keys(body);
      PutNewKey(body, "sound", snd.value);
      body := Put(body, "sound", snd.value);
    }
  }

  /**
   * The field keys, in order: token, user, title, message; url and url_title only for a
   * non-blank URL; device and sound only when each is set and non-blank. No key repeats.
   */
  lemma FormKeys(token: string, user: string, title: string, message: string,
                 url: string, device: Option<string>, sound: Option<string>)
    ensures Keys(FormFields(token, user, title, message, url, device, sound)) ==
      ["token", "user", "title", "message"]
      + (if !IsBlank(url) then ["url", "url_title"] else [])
      + (if device.Some? && !IsBlank(device.value) then ["device"] else [])
      + (if sound.Some? && !IsBlank(sound.value) then ["sound"] else [])
    ensures forall i, j :: 0 <= i < j < |FormFields(token, user, title, message, url, device, sound)| ==>
      FormFields(token, user, title, message, url, device, sound)[i].0 != FormFields(token, user, title, message, url, device, sound)[j].0
  {
    var f := FormFields(token, user, title, message, url, device, sound);
    var ks := ["token", "user", "title", "message"]
      + (if !IsBlank(url) then ["url", "url_title"] else [])
      + (if device.Some? && !IsBlank(device.value) then ["device"] else [])
      + (if sound.Some? && !IsBlank(sound.value) then ["sound"] else []);
    assert |Keys(f)| == |ks|;
    forall i | 0 <= i < |ks| ensures Keys(f)[i] == ks[i] { }
  }

  /** The request body: each field as `key=encode(value)`, joined by `&`, in field order. */
  function FormBody(fields: seq<Field>, encode: string -> string): string {
    Join(seq(|fields|, i requires 0 <= i < |fields| => fields[i].0 + "=" + encode(fields[i].1)), "&")
  }

  /**
   * When neither the keys nor any encoded value contain `&` (as with URL encoding), splitting the
   * body at `&` gives back one `key=encode(value)` part per field, in field order.
   */
  lemma FormBodyParts(fields: seq<Field>, encode: string -> string)
    requires |fields| > 0
    requires forall i :: 0 <= i < |fields| ==> '&' !in fields[i].0 && '&' !in encode(fields[i].1)
    ensures |Split(FormBody(fields, encode), '&')| == |fields|
    ensures forall i :: 0 <= i < |fields| ==> Split(FormBody(fields, encode), '&')[i] == fields[i].0 + "=" + encode(fields[i].1)
  {
    var parts := seq(|fields|, i requires 0 <= i < |fields| => fields[i].0 + "=" + encode(fields[i].1));
    forall i | 0 <= i < |parts| ensures '&' !in parts[i] {
      assert parts[i] == fields[i].0 + "=" + encode(fields[i].1);
    }
    SplitJoin(parts, '&');
  }

  /**
   * `notifyNewShowings`: skip when the credentials are blank; otherwise build the title, the
   * message and the form, and post the body. `postThrows` says whether the POST throws; that
   * failure is caught, so the call never fails.
   */
  method NotifyNewShowings(cfg: PushoverConfig, rentlyUrl: string, batch: seq<ShowingRow>,
                           encode: string -> string, postThrows: bool) returns (out: PushOutcome)
    ensures out.Skipped? <==> Credentials(cfg).None?
    ensures out.SendFailed? <==> Credentials(cfg).Some? && postThrows
    ensures !out.Skipped? ==> out.body == FormBody(
      FormFields(Credentials(cfg).value.0, Credentials(cfg).value.1, Title(|batch|), Message(batch),
                 rentlyUrl, cfg.device, cfg.sound), encode)
  {
    var credentials := Credentials(cfg);
    if credentials.None? {
      return Skipped;
    }
    var (token, user) := credentials.value;
    var title := Title(|batch|);
    var message := BuildMessage(batch);
    var fields := BuildForm(token, user, title, message, rentlyUrl, cfg.device, cfg.sound);
    var body := FormBody(fields, encode);
    if postThrows {
      out := SendFailed(body);
    } else {
      out := Sent(body);
    }
  }
}
