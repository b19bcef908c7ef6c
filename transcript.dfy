/**
 * The transcript written when a ticket is deleted: a header naming the
 * channel, then one `[YYYY-MM-DD HH:MM] author: content` line per message,
 * oldest first. Timestamps are `strftime('%Y-%m-%d %H:%M')` over integer fields.
 */
module Transcript {
  import opened Wrappers

  /** A message's `created_at`, down to the minute. */
  datatype DateTime = DateTime(year: nat, month: nat, day: nat, hour: nat, minute: nat)

  /** The ranges Python's `datetime` allows for these fields. */
  predicate ValidDateTime(t: DateTime) {
    1 <= t.year <= 9999 && 1 <= t.month <= 12 && 1 <= t.day <= 31 && t.hour < 24 && t.minute < 60
  }

  /** One entry of `channel.history(oldest_first=True)`; `author` is `str(msg.author)`. */
  datatype Message = Message(time: DateTime, author: string, content: string)

  // ---------------------------------------------------------------- digits

  predicate IsDigit(c: char) {
    '0' <= c <= '9'
  }

  predicate AllDigits(s: string) {
    forall i :: 0 <= i < |s| ==> IsDigit(s[i])
  }

  function DigitChar(d: nat): (c: char)
    requires d < 10
    ensures IsDigit(c) && c as int - '0' as int == d
  {
    ('0' as int + d) as char
  }

  /** The number a string of decimal digits denotes. */
  function ValueOf(s: string): nat
    requires AllDigits(s)
  {
    if s == [] then 0 else ValueOf(s[..|s| - 1]) * 10 + (s[|s| - 1] as int - '0' as int)
  }

  /** `%02d`: the last two decimal digits of `n`, zero-padded on the left
      (every field a `datetime` can hold fits). */
  function Pad2(n: nat): (r: string)
    ensures |r| == 2 && AllDigits(r)
  {
    [DigitChar(n / 10 % 10), DigitChar(n % 10)]
  }

  /** `%04d`: the last four decimal digits of `n`, zero-padded on the left. */
  function Pad4(n: nat): (r: string)
    ensures |r| == 4 && AllDigits(r)
  {
    var tens := n / 10;
    var hundreds := tens / 10;
    var thousands := hundreds / 10;
    [DigitChar(thousands % 10), DigitChar(hundreds % 10), DigitChar(tens % 10), DigitChar(n % 10)]
  }

  lemma Pad2RoundTrip(n: nat)
    requires n < 100
    ensures ValueOf(Pad2(n)) == n
  {
    var r := Pad2(n);
    assert r[..1][..0] == [];
    assert r[..1] == [DigitChar(n / 10)];
    assert ValueOf(r[..1]) == n / 10;
  }

  lemma Pad4RoundTrip(n: nat)
    requires n < 10000
    ensures ValueOf(Pad4(n)) == n
  {
    var r := Pad4(n);
    var tens := n / 10;
    var hundreds := tens / 10;
    var thousands := hundreds / 10;
    var r1, r2, r3 := r[..1], r[..2], r[..3];
    assert r1[..0] == [];
    assert ValueOf(r1) == thousands;
    assert r2[..1] == r1;
    assert ValueOf(r2) == thousands * 10 + hundreds % 10 == hundreds;
    assert r3[..2] == r2;
    assert ValueOf(r3) == hundreds * 10 + tens % 10 == tens;
    assert r[..3] == r3;
    assert ValueOf(r) == tens * 10 + n % 10;
  }

  /** `n` in decimal without padding, as `str(n)` renders it. */
  function Decimal(n: nat): (r: string)
    ensures |r| >= 1 && AllDigits(r)
    ensures ValueOf(r) == n
    ensures r[0] == '0' <==> n == 0
    ensures n == 0 ==> r == "0"
    decreases n
  {
    if n < 10 then [DigitChar(n)]
    else
      var r := Decimal(n / 10) + [DigitChar(n % 10)];
      assert r[..|r| - 1] == Decimal(n / 10);
      r
  }

  // ---------------------------------------------------------------- timestamps

  /** `strftime('%Y-%m-%d %H:%M')`. */
  function TimeStamp(t: DateTime): (r: string)
  {
    Pad4(t.year) + "-" + Pad2(t.month) + "-" + Pad2(t.day) + " "
      + Pad2(t.hour) + ":" + Pad2(t.minute)
  }

  /** Reads a `YYYY-MM-DD HH:MM` string back into its fields. */
  function ParseTimeStamp(s: string): Option<DateTime> {
    if |s| == 16 && s[4] == '-' && s[7] == '-' && s[10] == ' ' && s[13] == ':'
       && AllDigits(s[0..4]) && AllDigits(s[5..7]) && AllDigits(s[8..10])
       && AllDigits(s[11..13]) && AllDigits(s[14..16])
    then Some(DateTime(ValueOf(s[0..4]), ValueOf(s[5..7]), ValueOf(s[8..10]),
                       ValueOf(s[11..13]), ValueOf(s[14..16])))
    else None
  }

  /** The rendering is sixteen characters, digits except for the four separators,
      and loses nothing: reading it back gives the same date and time. */
  lemma TimeStampRoundTrip(t: DateTime)
    requires ValidDateTime(t)
    ensures |TimeStamp(t)| == 16
    ensures forall i :: 0 <= i < 16 && i !in {4, 7, 10, 13} ==> IsDigit(TimeStamp(t)[i])
    ensures ParseTimeStamp(TimeStamp(t)) == Some(t)
  {
    Pad4RoundTrip(t.year);
    Pad2RoundTrip(t.month);
    Pad2RoundTrip(t.day);
    Pad2RoundTrip(t.hour);
    Pad2RoundTrip(t.minute);
    var s := TimeStamp(t);
    var y, mo, d, h, mi := Pad4(t.year), Pad2(t.month), Pad2(t.day), Pad2(t.hour), Pad2(t.minute);
    assert s == y + "-" + mo + "-" + d + " " + h + ":" + mi;
    assert s[0..4] == y;
    assert s[5..7] == mo;
    assert s[8..10] == d;
    assert s[11..13] == h;
    assert s[14..16] == mi;
    forall i | 0 <= i < 16 && i !in {4, 7, 10, 13} ensures IsDigit(s[i]) {
      if i < 4 { assert s[i] == y[i]; }
      else if i < 7 { assert s[i] == mo[i - 5]; }
      else if i < 10 { assert s[i] == d[i - 8]; }
      else if i < 13 { assert s[i] == h[i - 11]; }
      else { assert s[i] == mi[i - 14]; }
    }
  }

  /** Distinct moments render differently. */
  lemma TimeStampInjective(t: DateTime, u: DateTime)
    requires ValidDateTime(t) && ValidDateTime(u) && TimeStamp(t) == TimeStamp(u)
    ensures t == u
  {
    TimeStampRoundTrip(t);
    TimeStampRoundTrip(u);
  }

  // ---------------------------------------------------------------- the transcript

  function Header(channelName: string): string {
    "--- Ticket Log: " + channelName + " ---\n"
  }

  /** `f"[{time}] {msg.author}: {msg.content}\n"`, as the join of its pieces. */
  function LogLine(m: Message): string {
    Concat(["[", TimeStamp(m.time), "] ", m.author, ": ", m.content, "\n"])
  }

  /** The strings of `pieces` joined in order. */
  function Concat(pieces: seq<string>): string {
    if pieces == [] then "" else Concat(pieces[..|pieces| - 1]) + pieces[|pieces| - 1]
  }

  /** `render` applied to every message, in history order. */
  function Rendered(history: seq<Message>, render: Message -> string): (r: seq<string>)
    ensures |r| == |history|
  {
    if history == [] then []
    else Rendered(history[..|history| - 1], render) + [render(history[|history| - 1])]
  }

  /** The log line of every message, in history order. */
  function LinesOf(history: seq<Message>): seq<string> {
    Rendered(history, LogLine)
  }

  function TranscriptOf(channelName: string, history: seq<Message>): string {
    Header(channelName) + Concat(LinesOf(history))
  }

  /** The `ticket_delete` branch's accumulation of `log_str`, message by message:
      the header, then the line of each message in history order. */
  method BuildTranscript(channelName: string, history: seq<Message>) returns (log: string)
    ensures log == TranscriptOf(channelName, history)
  {
    log := Header(channelName);
    var i := 0;
    while i < |history|
      invariant 0 <= i <= |history|
      invariant log == Header(channelName) + Concat(LinesOf(history[..i]))
    {
      var line := LogLine(history[i]);
      RenderedPrefix(history, i, LogLine);
      ConcatSnoc(LinesOf(history[..i]), line);
      log := log + line;
      i := i + 1;
    }
    assert history[..i] == history;
  }

  /** Extending the history by its next message adds that message's rendering. */
  lemma RenderedPrefix(history: seq<Message>, i: nat, render: Message -> string)
    requires i < |history|
    ensures Rendered(history[..i + 1], render) == Rendered(history[..i], render) + [render(history[i])]
  {
    var p := history[..i + 1];
    assert p[..|p| - 1] == history[..i];
    assert p[|p| - 1] == history[i];
  }

  lemma {:induction false} RenderedAppend(a: seq<Message>, b: seq<Message>, render: Message -> string)
    ensures Rendered(a + b, render) == Rendered(a, render) + Rendered(b, render)
    decreases |b|
  {
    if b == [] {
      assert a + b == a;
    } else {
      var b', y := b[..|b| - 1], b[|b| - 1];
      RenderedAppend(a, b', render);
      var ab := a + b;
      assert ab[..|ab| - 1] == a + b';
      assert ab[|ab| - 1] == y;
    }
  }

  /** The k-th rendering is the k-th message's. */
  lemma {:induction false} RenderedAt(history: seq<Message>, k: nat, render: Message -> string)
    requires k < |history|
    ensures Rendered(history, render)[k] == render(history[k])
    decreases |history|
  {
    var init := history[..|history| - 1];
    if k < |init| {
      RenderedAt(init, k, render);
    }
  }

  lemma {:induction false} ConcatSnoc(pieces: seq<string>, x: string)
    ensures Concat(pieces + [x]) == Concat(pieces) + x
  {
    var ps := pieces + [x];
    assert ps[..|ps| - 1] == pieces;
    assert ps[|ps| - 1] == x;
  }

  lemma {:induction false} ConcatAppend(a: seq<string>, b: seq<string>)
    ensures Concat(a + b) == Concat(a) + Concat(b)
    decreases |b|
  {
    if b == [] {
      assert a + b == a;
    } else {
      var b', x := b[..|b| - 1], b[|b| - 1];
      ConcatAppend(a, b');
      var ab := a + b;
      assert ab[..|ab| - 1] == a + b';
      assert ab[|ab| - 1] == x;
      assert Concat(ab) == Concat(a + b') + x;
      assert Concat(b) == Concat(b') + x;
    }
  }

  lemma {:induction false} ConcatSplit(ls: seq<string>, k: nat)
    requires k < |ls|
    ensures Concat(ls) == Concat(ls[..k]) + ls[k] + Concat(ls[k + 1..])
  {
    var a, x, b := ls[..k], ls[k], ls[k + 1..];
    assert ls == (a + [x]) + b;
    ConcatAppend(a + [x], b);
    ConcatSnoc(a, x);
    assert Concat(ls) == (Concat(a) + x) + Concat(b);
  }

  lemma {:induction false} JoinSeven(a: string, b: string, c: string, d: string, e: string, f: string, g: string)
    ensures Concat([a, b, c, d, e, f, g]) == a + b + c + d + e + f + g
  {
    var ps := [a, b, c, d, e, f, g];
    assert ps[..1][..0] == [];
    assert Concat(ps[..1]) == a;
    assert ps[..2][..1] == ps[..1];
    assert Concat(ps[..2]) == a + b;
    assert ps[..3][..2] == ps[..2];
    assert Concat(ps[..3]) == a + b + c;
    assert ps[..4][..3] == ps[..3];
    assert Concat(ps[..4]) == a + b + c + d;
    assert ps[..5][..4] == ps[..4];
    assert Concat(ps[..5]) == a + b + c + d + e;
    assert ps[..6][..5] == ps[..5];
    assert Concat(ps[..6]) == a + b + c + d + e + f;
    assert ps[..6] == ps[..|ps| - 1];
  }

  /** Transcripts of consecutive stretches of history concatenate. */
  lemma {:induction false} LinesAppend(a: seq<Message>, b: seq<Message>)
    ensures Concat(LinesOf(a + b)) == Concat(LinesOf(a)) + Concat(LinesOf(b))
  {
    RenderedAppend(a, b, LogLine);
    ConcatAppend(LinesOf(a), LinesOf(b));
  }

  /** The k-th message contributes exactly its own line, after the lines of every
      earlier message and before those of every later one. */
  lemma {:induction false} LineAt(history: seq<Message>, k: nat)
    requires k < |history|
    ensures LinesOf(history)[k] == LogLine(history[k])
    ensures Concat(LinesOf(history)) ==
            Concat(LinesOf(history[..k])) + LogLine(history[k]) + Concat(LinesOf(history[k + 1..]))
  {
    RenderedAt(history, k, LogLine);
    RenderedSlices(history, k, LogLine);
    ConcatSplit(LinesOf(history), k);
  }

  /** The renderings before and after position k are those of the history before and after it. */
  lemma {:induction false} RenderedSlices(history: seq<Message>, k: nat, render: Message -> string)
    requires k < |history|
    ensures Rendered(history, render)[..k] == Rendered(history[..k], render)
    ensures Rendered(history, render)[k + 1..] == Rendered(history[k + 1..], render)
  {
    var ls := Rendered(history, render);
    assert history == history[..k] + history[k..];
    RenderedAppend(history[..k], history[k..], render);
    assert history[k..] == [history[k]] + history[k + 1..];
    RenderedAppend([history[k]], history[k + 1..], render);
    assert ls[k..] == Rendered([history[k]], render) + Rendered(history[k + 1..], render);
  }

  // ---------------------------------------------------------------- line count

  function Count(c: char, s: string): nat {
    if s == [] then 0 else Count(c, s[..|s| - 1]) + (if s[|s| - 1] == c then 1 else 0)
  }

  lemma {:induction false} CountAppend(c: char, a: string, b: string)
    ensures Count(c, a + b) == Count(c, a) + Count(c, b)
    decreases |b|
  {
    if b == [] {
      assert a + b == a;
    } else {
      CountAppend(c, a, b[..|b| - 1]);
      assert (a + b)[..|a + b| - 1] == a + b[..|b| - 1];
    }
  }

  lemma {:induction false} CountAbsent(c: char, s: string)
    requires forall i :: 0 <= i < |s| ==> s[i] != c
    ensures Count(c, s) == 0
    decreases |s|
  {
    if s != [] { CountAbsent(c, s[..|s| - 1]); }
  }

  lemma {:induction false} CountDigits(s: string)
    requires AllDigits(s)
    ensures Count('\n', s) == 0
    decreases |s|
  {
    if s != [] { CountDigits(s[..|s| - 1]); }
  }

  /** A message whose author and content hold no newline renders as exactly one line. */
  lemma LogLineIsOneLine(m: Message)
    requires Count('\n', m.author) == 0 && Count('\n', m.content) == 0
    ensures Count('\n', LogLine(m)) == 1
  {
    var t := m.time;
    CountDigits(Pad4(t.year));
    CountDigits(Pad2(t.month));
    CountDigits(Pad2(t.day));
    CountDigits(Pad2(t.hour));
    CountDigits(Pad2(t.minute));
    CountAppend('\n', Pad4(t.year), "-");
    CountAppend('\n', Pad4(t.year) + "-", Pad2(t.month));
    CountAppend('\n', Pad4(t.year) + "-" + Pad2(t.month), "-");
    CountAppend('\n', Pad4(t.year) + "-" + Pad2(t.month) + "-", Pad2(t.day));
    CountAppend('\n', Pad4(t.year) + "-" + Pad2(t.month) + "-" + Pad2(t.day), " ");
    CountAppend('\n', Pad4(t.year) + "-" + Pad2(t.month) + "-" + Pad2(t.day) + " ", Pad2(t.hour));
    CountAppend('\n', Pad4(t.year) + "-" + Pad2(t.month) + "-" + Pad2(t.day) + " " + Pad2(t.hour), ":");
    CountAppend('\n', Pad4(t.year) + "-" + Pad2(t.month) + "-" + Pad2(t.day) + " " + Pad2(t.hour) + ":", Pad2(t.minute));
    var ts := TimeStamp(t);
    assert Count('\n', ts) == 0;
    JoinSeven("[", ts, "] ", m.author, ": ", m.content, "\n");
    CountAppend('\n', "[", ts);
    CountAppend('\n', "[" + ts, "] ");
    CountAppend('\n', "[" + ts + "] ", m.author);
    CountAppend('\n', "[" + ts + "] " + m.author, ": ");
    CountAppend('\n', "[" + ts + "] " + m.author + ": ", m.content);
    CountAppend('\n', "[" + ts + "] " + m.author + ": " + m.content, "\n");
  }

  predicate SingleLineMessages(history: seq<Message>) {
    forall k :: 0 <= k < |history| ==>
      Count('\n', history[k].author) == 0 && Count('\n', history[k].content) == 0
  }

  /** Joining pieces that are each one line gives as many line breaks as pieces. */
  lemma {:induction false} CountConcat(c: char, pieces: seq<string>)
    requires forall k :: 0 <= k < |pieces| ==> Count(c, pieces[k]) == 1
    ensures Count(c, Concat(pieces)) == |pieces|
    decreases |pieces|
  {
    if pieces != [] {
      var init := pieces[..|pieces| - 1];
      CountConcat(c, init);
      CountAppend(c, Concat(init), pieces[|pieces| - 1]);
    }
  }

  /** One line per message plus the header: the transcript holds |history| + 1 line
      breaks when the channel name and every author and content are single-line. */
  lemma TranscriptLineCount(channelName: string, history: seq<Message>)
    requires SingleLineMessages(history) && Count('\n', channelName) == 0
    ensures Count('\n', TranscriptOf(channelName, history)) == |history| + 1
  {
    CountAbsent('\n', "--- Ticket Log: ");
    CountAbsent('\n', " ---");
    CountAppend('\n', " ---", "\n");
    assert "\n"[..0] == [];
    assert " ---" + "\n" == " ---\n";
    CountAppend('\n', "--- Ticket Log: ", channelName);
    CountAppend('\n', "--- Ticket Log: " + channelName, " ---\n");
    var lines := LinesOf(history);
    forall k | 0 <= k < |lines| ensures Count('\n', lines[k]) == 1 {
      RenderedAt(history, k, LogLine);
      LogLineIsOneLine(history[k]);
    }
    CountConcat('\n', lines);
    CountAppend('\n', Header(channelName), Concat(lines));
  }
}
