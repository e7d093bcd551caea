/** What received lines do, told from their bytes alone. */
module LineMeaning {
  import opened Prelude
  import opened Text
  import opened SessionSpec
  import opened SessionInvariants
  import opened SessionTheorems
  import Replies

  /** Two letters and a number up to 255, white space around it allowed. */
  predicate Numbering(said: bytes, a: byte, b: byte, n: byte) {
    |said| >= 2 && said[0] == a && said[1] == b && ParseDecimalU8(said[2..]) == Some(n)
  }

  /** "ok" and a number. */
  predicate SaysOk(said: bytes) {
    exists n :: Numbering(said, 111, 107, n)
  }

  /** "rs" and a number. */
  predicate SaysResend(said: bytes) {
    exists n :: Numbering(said, 114, 115, n)
  }

  predicate StartsSs(said: bytes) {
    |said| >= 2 && said[0] == 115 && said[1] == 115
  }

  predicate SaysFe(said: bytes) {
    said == [102, 101]
  }

  /** A line that is neither a reply the session acts on nor empty. */
  predicate Chat(said: bytes) {
    said != [] && !SaysOk(said) && !SaysResend(said) && !StartsSs(said) && !SaysFe(said)
  }

  /** A line that neither acknowledges, nor synchronises, nor fails. */
  predicate Inert(said: bytes) {
    !SaysOk(said) && !SaysFe(said) && !(StartsSs(said) && ParseSync(said[2..]).Some?)
  }

  // ----- The pieces -----

  /** Exactly the CR and LF bytes at the end of a line go. */
  lemma {:induction false} StripExact(text: bytes, ends: bytes)
    requires forall b :: b in ends ==> b == LF || b == CR
    requires text != [] ==> text[|text| - 1] != LF && text[|text| - 1] != CR
    ensures StripLineEndings(text + ends) == text
    decreases |ends|
  {
    if ends == [] {
      assert text + ends == text;
    } else {
      var k := |ends| - 1;
      assert (text + ends)[..|text| + k] == text + ends[..k];
      assert ends[k] in ends && forall b :: b in ends[..k] ==> b in ends;
      StripExact(text, ends[..k]);
    }
  }

  /** Digits, with or without a plus sign before them. */
  ghost predicate WritesNumber(s: bytes, n: nat) {
    exists digits ::
      && (s == digits || s == [43] + digits)
      && digits != [] && AllDigits(digits) && DigitsValue(digits) == n
  }

  /** The numbers of ok and rs lines: valid text that, trimmed, writes a number below 256. */
  lemma NumberRead(b: bytes, n: byte)
    ensures ParseDecimalU8(b) == Some(n) <==> ValidUtf8(b) && WritesNumber(Trim(b), n)
  {
    hide ValidUtf8, Trim, DigitsValue;
    if ValidUtf8(b) && WritesNumber(Trim(b), n) {
      NoNumberInNothing(b, n);
      UnsignedRead(Trim(b), 0xFFFF_FFFF, n);
    }
    if ParseDecimalU8(b) == Some(n) {
      UnsignedRead(Trim(b), 0xFFFF_FFFF, n);
    }
  }

  lemma NoNumberInNothing(b: bytes, n: nat)
    requires WritesNumber(Trim(b), n)
    ensures b != []
  {
  }

  lemma UnsignedRead(s: bytes, max: nat, n: nat)
    ensures ParseUnsigned(s, max) == Some(n) <==> n <= max && WritesNumber(s, n)
  {
    hide DigitsValue;
    if s != [] && s[0] == PLUS {
      assert s == [43] + s[1..];
      assert !IsDigit(s[0]) && s[0] in s;
      if WritesNumber(s, n) {
        var digits :| (s == digits || s == [43] + digits) && digits != [] && AllDigits(digits)
                      && DigitsValue(digits) == n;
        assert digits == s[1..];
      }
    } else if WritesNumber(s, n) {
      var digits :| (s == digits || s == [43] + digits) && digits != [] && AllDigits(digits)
                    && DigitsValue(digits) == n;
      assert s == digits;
    }
  }

  /** What an ss line carries: two numbers without commas, and the rest, commas and all. */
  ghost predicate SyncFields(rest: bytes, sync: u16, size: u16, version: bytes) {
    exists a, b, v ::
      && rest == a + [COMMA] + (b + [COMMA] + v) && COMMA !in a && COMMA !in b
      && WritesNumber(Trim(a), sync) && WritesNumber(Trim(b), size) && version == Trim(v)
  }

  lemma SyncRead(rest: bytes, sync: u16, size: u16, version: bytes)
    ensures ParseSync(rest) == Some((sync, size, version))
            <==> ValidUtf8(rest) && SyncFields(rest, sync, size, version)
  {
    hide ValidUtf8, Trim, WritesNumber, ParseUnsigned;
    if ParseSync(rest) == Some((sync, size, version)) {
      var (a, more) := SplitOnce(rest, COMMA).value;
      var (b, v) := SplitOnce(more, COMMA).value;
      UnsignedRead(Trim(a), 65535, sync);
      UnsignedRead(Trim(b), 65535, size);
      assert rest == a + [COMMA] + (b + [COMMA] + v);
    }
    if ValidUtf8(rest) && SyncFields(rest, sync, size, version) {
      var a, b, v :|
        && rest == a + [COMMA] + (b + [COMMA] + v) && COMMA !in a && COMMA !in b
        && WritesNumber(Trim(a), sync) && WritesNumber(Trim(b), size) && version == Trim(v);
      SplitJoined(a, COMMA, b + [COMMA] + v);
      SplitJoined(b, COMMA, v);
      UnsignedRead(Trim(a), 65535, sync);
      UnsignedRead(Trim(b), 65535, size);
    }
  }

  // ----- One line -----

  /** Chat that is UTF-8 is raised as text and changes nothing else. */
  lemma TextPassedOn(h: Host, line: bytes, now: int)
    requires h.inbound == [] && LF !in line
    requires var said := StripLineEndings(line + [LF]); Chat(said) && ValidUtf8(said)
    ensures Feed(h, line + [LF], now) == Host(Raise(h.core, AsciiLine(StripLineEndings(line + [LF]))), [])
  {
    hide Feed, StripLineEndings, ValidUtf8, ParseDecimalU8;
    Replies.FeedLine(h, line, now);
    ChatClassified(StripLineEndings(line + [LF]));
  }

  /** Chat that is not UTF-8 changes nothing, and neither does an empty line. */
  lemma GarbageDropped(h: Host, line: bytes, now: int)
    requires h.inbound == [] && LF !in line
    requires var said := StripLineEndings(line + [LF]); said == [] || (Chat(said) && !ValidUtf8(said))
    ensures Feed(h, line + [LF], now) == h
  {
    hide Feed, StripLineEndings, ValidUtf8, ParseDecimalU8;
    Replies.FeedLine(h, line, now);
    var said := StripLineEndings(line + [LF]);
    if said != [] {
      ChatClassified(said);
    }
  }

  lemma ChatClassified(said: bytes)
    requires Chat(said)
    ensures Classify(said) == if ValidUtf8(said) then TextLine(said) else Ignored
  {
    hide ValidUtf8, ParseDecimalU8, ParseSync;
    NumberFollows(said, 111, 107);
    NumberFollows(said, 114, 115);
  }

  lemma NumberFollows(said: bytes, a: byte, b: byte)
    ensures (exists n :: Numbering(said, a, b, n)) <==> [a, b] <= said && ParseDecimalU8(said[2..]).Some?
  {
    hide ParseDecimalU8;
    var prefix := [a, b];
    if prefix <= said && ParseDecimalU8(said[2..]).Some? {
      assert said[0] == prefix[0] && said[1] == prefix[1];
      assert Numbering(said, a, b, ParseDecimalU8(said[2..]).value);
    }
    if n :| Numbering(said, a, b, n) {
      assert said[..2] == prefix;
    }
  }

  /** An inert line raises at most one event, a text or a resend request. */
  lemma InertHeard(c: Core, raw: bytes, now: int)
    requires Inert(StripLineEndings(raw))
    ensures var d := AcceptLine(c, raw, now);
            d == c || exists e :: d == Raise(c, e) && (e.AsciiLine? || e.ResendRequested?)
  {
    hide StripLineEndings, ParseDecimalU8, ParseSync, ValidUtf8, Raise;
    NumberFollows(StripLineEndings(raw), 111, 107);
  }

  /** An ok with no packet in flight is passed on as the text "ok<n>", and nothing else happens. */
  lemma StrayOk(h: Host, line: bytes, n: byte, now: int)
    requires h.inbound == [] && LF !in line && h.core.inFlight.None?
    requires Numbering(StripLineEndings(line + [LF]), 111, 107, n)
    ensures Feed(h, line + [LF], now) == Host(Raise(h.core, AsciiLine([111, 107] + Decimal(n))), [])
  {
    hide Feed, StripLineEndings, ParseDecimalU8, Decimal;
    Replies.FeedLine(h, line, now);
  }

  /** An ok that answers a handshake, or names another number, only reports both numbers. */
  lemma WrongOk(h: Host, line: bytes, n: byte, now: int)
    requires h.inbound == [] && LF !in line && h.core.inFlight.Some?
    requires Numbering(StripLineEndings(line + [LF]), 111, 107, n)
    requires h.core.inFlight.value.isHandshake || n != h.core.inFlight.value.sync
    ensures Feed(h, line + [LF], now) == Host(Raise(h.core, OutOfSync(h.core.inFlight.value.sync, n)), [])
  {
    hide Feed, StripLineEndings, ParseDecimalU8;
    Replies.FeedLine(h, line, now);
  }

  // ----- Whole runs -----

  /** Everything received during a run. */
  function Received(ops: seq<Op>): bytes {
    if ops == [] then [] else (if ops[0].OpFeed? then ops[0].chunk else []) + Received(ops[1..])
  }

  /** The events a line raises whatever the session is doing. */
  function Told(said: bytes): seq<Event> {
    if said == [] then []
    else if OK <= said && ParseDecimalU8(said[2..]).Some? then []
    else if RS <= said && ParseDecimalU8(said[2..]).Some? then [ResendRequested(ParseDecimalU8(said[2..]).value)]
    else if StartsSs(said) then
      match ParseSync(said[2..])
      case Some((_, size, version)) => [Synced(size, version)]
      case None => []
    else if SaysFe(said) then [FatalError]
    else if ValidUtf8(said) then [AsciiLine(said)]
    else []
  }

  function ToldBy(lines: seq<bytes>): seq<Event> {
    if lines == [] then [] else Told(StripLineEndings(lines[0])) + ToldBy(lines[1..])
  }

  /** The events that depend on the packet in flight, a stray ok included. */
  predicate OfFlight(e: Event) {
    e.Ack? || e.OutOfSync? || e.Timeout?
    || (e.AsciiLine? && OK <= e.text && ParseDecimalU8(e.text[2..]).Some?)
  }

  function FromLines(es: seq<Event>): seq<Event> {
    if es == [] then []
    else FromLines(es[..|es| - 1]) + if OfFlight(es[|es| - 1]) then [] else [es[|es| - 1]]
  }

  lemma FromLinesSnoc(es: seq<Event>, e: Event)
    ensures FromLines(es + [e]) == FromLines(es) + if OfFlight(e) then [] else [e]
  {
    hide OfFlight;
    assert (es + [e])[..|es|] == es;
  }

  lemma OkTells(c: Core, n: byte, now: int)
    ensures FromLines(HandleOk(c, n, now).hist.raised) == FromLines(c.hist.raised)
  {
    hide Wire, FromLines, ParseDecimalU8, Decimal;
    var text := OK + Decimal(n);
    assert text[2..] == Decimal(n);
    Replies.ParseDecimalRoundTrip(n);
    FromLinesSnoc(c.hist.raised, AsciiLine(text));
    FromLinesSnoc(c.hist.raised, Ack(n));
    if c.inFlight.Some? {
      FromLinesSnoc(c.hist.raised, OutOfSync(c.inFlight.value.sync, n));
    }
  }

  lemma RaiseTells(c: Core, e: Event)
    requires !OfFlight(e)
    ensures FromLines(Raise(c, e).hist.raised) == FromLines(c.hist.raised) + [e]
  {
    hide FromLines, OfFlight;
    FromLinesSnoc(c.hist.raised, e);
  }

  lemma SyncTells(c: Core, s: u16, m: u16, v: bytes, now: int)
    ensures FromLines(Synchronize(c, s, m, v, now).hist.raised) == FromLines(c.hist.raised) + [Synced(m, v)]
  {
    hide Wire, FromLines;
    FromLinesSnoc(c.hist.raised, Synced(m, v));
  }

  lemma LineTells(c: Core, raw: bytes, now: int)
    ensures FromLines(AcceptLine(c, raw, now).hist.raised)
         == FromLines(c.hist.raised) + Told(StripLineEndings(raw))
  {
    hide Wire, StripLineEndings, FromLines, HandleOk, Synchronize, Raise, ParseDecimalU8, ParseSync, ValidUtf8;
    var said := StripLineEndings(raw);
    if said != [] {
      match Classify(said)
      case OkLine(n) => OkTells(c, n, now);
      case ResendLine(n) => RaiseTells(c, ResendRequested(n));
      case SyncLine(s, m, v) => SyncTells(c, s, m, v, now);
      case FatalLine => RaiseTells(c, FatalError);
      case TextLine(t) => RaiseTells(c, AsciiLine(t));
      case Ignored =>
    }
  }

  lemma {:induction false} LinesTell(c: Core, lines: seq<bytes>, now: int)
    ensures FromLines(AcceptLines(c, lines, now).hist.raised) == FromLines(c.hist.raised) + ToldBy(lines)
    decreases |lines|
  {
    hide AcceptLine, FromLines, Told;
    if lines != [] {
      LineTells(c, lines[0], now);
      LinesTell(AcceptLine(c, lines[0], now), lines[1..], now);
    }
  }

  lemma {:induction false} ToldAppend(a: seq<bytes>, b: seq<bytes>)
    ensures ToldBy(a + b) == ToldBy(a) + ToldBy(b)
    decreases |a|
  {
    hide Told;
    if a == [] {
      assert a + b == b;
    } else {
      assert (a + b)[1..] == a[1..] + b;
      ToldAppend(a[1..], b);
    }
  }

  lemma QuietOp(h: Host, op: Op)
    requires Allowed(h, op) && !op.OpReset? && !op.OpFeed?
    ensures var g := Step(h, op);
            FromLines(g.core.hist.raised) == FromLines(h.core.hist.raised) && g.inbound == h.inbound
  {
    hide Wire, FromLines, Recopied;
    if op.OpTick? && h.core.inFlight.Some? {
      FromLinesSnoc(h.core.hist.raised, Timeout(h.core.inFlight.value.sync));
    }
  }

  /**
   * Over every run without reset, whatever was sent, ticked and polled and however
   * the bytes were cut: apart from what depends on the packet in flight, the events
   * raised are exactly what the complete lines received say, in order.
   */
  lemma {:induction false} RunTells(h: Host, ops: seq<Op>)
    requires LF !in h.inbound && Run(h, ops).Some? && forall op :: op in ops ==> !op.OpReset?
    ensures var g, stream := Run(h, ops).value, h.inbound + Received(ops);
            && FromLines(g.core.hist.raised) == FromLines(h.core.hist.raised) + ToldBy(Lines(stream))
            && g.inbound == Rest(stream)
    decreases |ops|
  {
    hide Step, Allowed, FromLines, ToldBy, Lines, Rest;
    var stream := h.inbound + Received(ops);
    if ops == [] {
      assert stream == h.inbound;
      IndexOfUnique(stream, LF, |stream|);
      NoLine(stream);
      NothingTold();
    } else {
      var d, more := Step(h, ops[0]), Received(ops[1..]);
      assert ops[0] in ops;
      if ops[0].OpFeed? {
        FeedTells(h, ops[0].chunk, ops[0].now);
        LinesAppend(h.inbound + ops[0].chunk, more);
        assert stream == (h.inbound + ops[0].chunk) + more;
        ToldAppend(Lines(h.inbound + ops[0].chunk), Lines(d.inbound + more));
      } else {
        QuietOp(h, ops[0]);
        assert [] + more == more;
      }
      RunTells(d, ops[1..]);
    }
  }

  lemma NothingTold()
    ensures ToldBy([]) == []
  {
  }

  lemma FeedTells(h: Host, chunk: bytes, now: int)
    ensures var g, buf := Step(h, OpFeed(chunk, now)), h.inbound + chunk;
            && FromLines(g.core.hist.raised) == FromLines(h.core.hist.raised) + ToldBy(Lines(buf))
            && g.inbound == Rest(buf) && LF !in g.inbound
  {
    hide FromLines, ToldBy, AcceptLines, Lines;
    LinesTell(h.core, Lines(h.inbound + chunk), now);
  }

  /**
   * A fatal error is raised if and only if a complete line is exactly "fe": no
   * chatter, however it begins, ends a transfer.
   */
  lemma FatalOnlyFe(h: Host, ops: seq<Op>)
    requires LF !in h.inbound && Run(h, ops).Some? && forall op :: op in ops ==> !op.OpReset?
    ensures FatalError in Run(h, ops).value.core.hist.raised
            <==> FatalError in h.core.hist.raised
                 || exists line :: line in Lines(h.inbound + Received(ops)) && SaysFe(StripLineEndings(line))
  {
    hide Run, FromLines, ToldBy, Lines, OfFlight;
    RunTells(h, ops);
    FatalKept(h.core.hist.raised);
    FatalKept(Run(h, ops).value.core.hist.raised);
    FatalTold(Lines(h.inbound + Received(ops)));
  }

  lemma {:induction false} FatalKept(es: seq<Event>)
    ensures FatalError in FromLines(es) <==> FatalError in es
  {
    if es != [] {
      FatalKept(es[..|es| - 1]);
      assert forall e :: e in es <==> e in es[..|es| - 1] || e == es[|es| - 1];
    }
  }

  lemma {:induction false} FatalTold(lines: seq<bytes>)
    ensures FatalError in ToldBy(lines) <==> exists line :: line in lines && SaysFe(StripLineEndings(line))
  {
    hide StripLineEndings, Told, SaysFe;
    if lines != [] {
      FatalTold(lines[1..]);
      FeTold(StripLineEndings(lines[0]));
      assert ToldBy(lines) == Told(StripLineEndings(lines[0])) + ToldBy(lines[1..]);
      if FatalError in ToldBy(lines[1..]) {
        var line :| line in lines[1..] && SaysFe(StripLineEndings(line));
        assert line in lines;
      }
      if line :| line in lines && SaysFe(StripLineEndings(line)) {
        assert line == lines[0] || line in lines[1..];
      }
    }
  }

  lemma FeTold(said: bytes)
    ensures FatalError in Told(said) <==> SaysFe(said)
  {
    hide ParseDecimalU8, ParseSync, ValidUtf8;
    if SaysFe(said) {
      assert said[0] == 102;
    }
  }
}
