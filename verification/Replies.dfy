/** What the device prints is what the host reads. */
module Replies {
  import opened Prelude
  import opened Text
  import opened SessionSpec
  import T = TransferSpec
  import D = DeviceSpec

  lemma FeedLine(h: Host, line: bytes, now: int)
    requires h.inbound == [] && LF !in line
    ensures Feed(h, line + [LF], now) == Host(AcceptLine(h.core, line + [LF], now), [])
  {
    hide AcceptLine;
    var buf := line + [LF];
    assert [] + buf == buf;
    IndexOfUnique(buf, LF, |line|);
    assert buf[..|line| + 1] == buf && buf[|line| + 1..] == [];
    assert Lines([]) == [] && Rest([]) == [];
    assert Lines(buf) == [buf] && Rest(buf) == [];
    var lines: seq<bytes> := [buf];
    assert lines[1..] == [];
    assert AcceptLines(h.core, lines, now) == AcceptLine(h.core, buf, now);
  }

  /** A line ending in neither CR nor LF is what remains of it plus a newline. */
  lemma StripNewline(line: bytes)
    requires line != [] && line[|line| - 1] != CR && line[|line| - 1] != LF
    ensures StripLineEndings(line + [LF]) == line
  {
    assert (line + [LF])[..|line|] == line;
  }

  lemma {:induction false} StripSuffix(prefix: bytes, s: bytes)
    requires prefix != [] && prefix[|prefix| - 1] != CR && prefix[|prefix| - 1] != LF
    ensures StripLineEndings(prefix + s) == prefix + StripLineEndings(s)
  {
    if s == [] {
      assert prefix + s == prefix;
    } else if s[|s| - 1] == LF || s[|s| - 1] == CR {
      assert (prefix + s)[..|prefix + s| - 1] == prefix + s[..|s| - 1];
      StripSuffix(prefix, s[..|s| - 1]);
    }
  }

  lemma {:induction false} DropAscii(s: bytes, b: byte)
    requires ValidUtf8(s + [b]) && b < 0x80
    ensures ValidUtf8(s)
    decreases |s|
  {
    if s != [] {
      var n := CharLen(s + [b]);
      assert CharLen(s) == n && n <= |s|;
      assert (s + [b])[n..] == s[n..] + [b];
      DropAscii(s[n..], b);
    }
  }

  lemma {:induction false} StripKeepsUtf8(s: bytes)
    requires ValidUtf8(s)
    ensures ValidUtf8(StripLineEndings(s))
  {
    if s != [] && (s[|s| - 1] == LF || s[|s| - 1] == CR) {
      assert s == s[..|s| - 1] + [s[|s| - 1]];
      DropAscii(s[..|s| - 1], s[|s| - 1]);
      StripKeepsUtf8(s[..|s| - 1]);
    }
  }

  lemma DigitsAreAscii(s: bytes)
    requires AllDigits(s)
    ensures Ascii(s) && ValidUtf8(s) && LF !in s && COMMA !in s && COLON !in s && CR !in s
  {
    AsciiIsUtf8(s);
  }

  lemma ParseDecimalRoundTrip(n: byte)
    ensures ParseDecimalU8(Decimal(n)) == Some(n)
  {
    DigitsAreAscii(Decimal(n));
    TrimDigits(Decimal(n));
    ParseDecimal(n, 0xFFFF_FFFF);
  }

  /** `ok<n>` is read back as an acknowledgement of n. */
  lemma OkRoundTrip(h: Host, n: byte, now: int)
    requires h.inbound == []
    ensures Feed(h, D.OkText(n) + [LF], now) == Host(HandleOk(h.core, n, now), [])
  {
    hide HandleOk, ParseDecimalU8, Decimal;
    var line := D.OkText(n);
    DigitsAreAscii(Decimal(n));
    FeedLine(h, line, now);
    assert line[|line| - 1] == Decimal(n)[|Decimal(n)| - 1] && Decimal(n)[|Decimal(n)| - 1] in Decimal(n);
    StripNewline(line);
    assert line[2..] == Decimal(n);
    ParseDecimalRoundTrip(n);
  }

  /** `rs<n>` is read back as a resend request for n, and changes nothing else. */
  lemma ResendRoundTrip(h: Host, n: byte, now: int)
    requires h.inbound == []
    ensures Feed(h, D.ResendText(n) + [LF], now) == Host(Raise(h.core, ResendRequested(n)), [])
  {
    hide ParseDecimalU8, Decimal;
    var line := D.ResendText(n);
    DigitsAreAscii(Decimal(n));
    FeedLine(h, line, now);
    assert line[|line| - 1] == Decimal(n)[|Decimal(n)| - 1] && Decimal(n)[|Decimal(n)| - 1] in Decimal(n);
    StripNewline(line);
    assert line[2..] == Decimal(n) && line[0] == 114;
    ParseDecimalRoundTrip(n);
  }

  lemma ParseSyncRoundTrip(sync: u16, maxBlockSize: u16, version: bytes)
    requires ValidUtf8(version)
    ensures ParseSync(Decimal(sync) + [COMMA] + (Decimal(maxBlockSize) + [COMMA] + version))
         == Some((sync, maxBlockSize, Trim(version)))
  {
    hide ValidUtf8, Trim, Decimal, SplitOnce, ParseUnsigned;
    var a, b := Decimal(sync), Decimal(maxBlockSize);
    var more := b + [COMMA] + version;
    DigitsAreAscii(a);
    DigitsAreAscii(b);
    AsciiIsUtf8(b + [COMMA]);
    AsciiIsUtf8(a + [COMMA]);
    Utf8Append(b + [COMMA], version);
    Utf8Append(a + [COMMA], more);
    SplitJoined(a, COMMA, more);
    SplitJoined(b, COMMA, version);
    TrimDigits(a);
    TrimDigits(b);
    ParseDecimal(sync, 65535);
    ParseDecimal(maxBlockSize, 65535);
  }

  /**
   * `ss<sync>,<max>,<version>` synchronises to sync mod 256 and reports max and the
   * trimmed version, for every newline-free version, commas included.
   */
  lemma SyncRoundTrip(h: Host, sync: u16, maxBlockSize: u16, version: bytes, now: int)
    requires h.inbound == [] && ValidUtf8(version) && LF !in version
    ensures Feed(h, D.SyncText(sync, maxBlockSize, version) + [LF], now)
         == Host(Synchronize(h.core, sync, maxBlockSize, Trim(version), now), [])
    ensures var c, d := h.core, Feed(h, D.SyncText(sync, maxBlockSize, version) + [LF], now).core;
            && d.isSynced && d.sync == sync % 256
            && d.maxBlockSize == Some(maxBlockSize) && d.protocolVersion == Some(Trim(version))
            && d.events == c.events + [Synced(maxBlockSize, Trim(version))]
  {
    hide ValidUtf8, Trim, Decimal, ParseSync, Synchronize, ParseDecimalU8, StripLineEndings, Feed;
    SynchronizeReports(h.core, sync, maxBlockSize, Trim(version), now);
    SyncLineFed(h, sync, maxBlockSize, version, now);
  }

  lemma SynchronizeReports(c: Core, sync: u16, maxBlockSize: u16, version: bytes, now: int)
    ensures var d := Synchronize(c, sync, maxBlockSize, version, now);
            && d.isSynced && d.sync == sync % 256
            && d.maxBlockSize == Some(maxBlockSize) && d.protocolVersion == Some(version)
            && d.events == c.events + [Synced(maxBlockSize, version)]
            && (d.inFlight.Some? && c.inFlight.Some? && c.inFlight.value.isHandshake ==> c.queued != [])
  {
    hide Wire;
  }

  lemma SyncLineFed(h: Host, sync: u16, maxBlockSize: u16, version: bytes, now: int)
    requires h.inbound == [] && ValidUtf8(version) && LF !in version
    ensures Feed(h, D.SyncText(sync, maxBlockSize, version) + [LF], now)
         == Host(Synchronize(h.core, sync, maxBlockSize, Trim(version), now), [])
  {
    hide ValidUtf8, Trim, Classify, Synchronize, StripLineEndings, D.SyncText, Feed;
    var line, kept := D.SyncText(sync, maxBlockSize, version), StripLineEndings(version);
    SyncTextStripped(sync, maxBlockSize, version);
    FeedLine(h, line, now);
    StripKeepsUtf8(version);
    SyncTextClassified(sync, maxBlockSize, kept);
    TrimStripped(version);
  }

  /** The ss line up to its version. */
  function SyncFront(sync: u16, maxBlockSize: u16): bytes {
    [115, 115] + (Decimal(sync) + [COMMA] + (Decimal(maxBlockSize) + [COMMA]))
  }

  lemma SyncTextSplit(sync: u16, maxBlockSize: u16, version: bytes)
    ensures D.SyncText(sync, maxBlockSize, version) == SyncFront(sync, maxBlockSize) + version
  {
    hide Decimal;
  }

  lemma SyncFrontEdges(sync: u16, maxBlockSize: u16)
    ensures var f := SyncFront(sync, maxBlockSize);
            f != [] && f[|f| - 1] == COMMA && LF !in f
  {
    hide Decimal;
    DigitsAreAscii(Decimal(sync));
    DigitsAreAscii(Decimal(maxBlockSize));
  }

  /** The line ending after the version goes, and with it those the version itself ends in. */
  lemma SyncTextStripped(sync: u16, maxBlockSize: u16, version: bytes)
    requires LF !in version
    ensures LF !in D.SyncText(sync, maxBlockSize, version)
    ensures StripLineEndings(D.SyncText(sync, maxBlockSize, version) + [LF])
         == D.SyncText(sync, maxBlockSize, StripLineEndings(version))
    ensures D.SyncText(sync, maxBlockSize, StripLineEndings(version)) != []
  {
    hide D.SyncText, SyncFront, StripLineEndings;
    var f := SyncFront(sync, maxBlockSize);
    SyncTextSplit(sync, maxBlockSize, version);
    SyncTextSplit(sync, maxBlockSize, StripLineEndings(version));
    SyncFrontEdges(sync, maxBlockSize);
    assert f + version + [LF] == f + (version + [LF]);
    StripSuffix(f, version + [LF]);
    StripOneMore(version);
  }

  lemma SyncTextClassified(sync: u16, maxBlockSize: u16, version: bytes)
    requires ValidUtf8(version)
    ensures Classify(D.SyncText(sync, maxBlockSize, version)) == SyncLine(sync, maxBlockSize, Trim(version))
  {
    hide ValidUtf8, Trim, Decimal, ParseSync, ParseDecimalU8;
    var line := D.SyncText(sync, maxBlockSize, version);
    assert line[0] == 115 && SS <= line;
    assert line[2..] == Decimal(sync) + [COMMA] + (Decimal(maxBlockSize) + [COMMA] + version);
    ParseSyncRoundTrip(sync, maxBlockSize, version);
  }

  lemma StripOneMore(s: bytes)
    ensures StripLineEndings(s + [LF]) == StripLineEndings(s)
  {
    assert (s + [LF])[..|s|] == s;
  }

  // ----- QUERY replies -----

  /** The host's reading of an advertised compression. */
  function Advertised(c: D.CompressionSpec): T.Compression {
    match c
    case Plain => T.NoCompression
    case Shrink(w, l) => T.Heatshrink(w, l)
  }

  lemma ParseU8RoundTrip(n: byte)
    ensures T.ParseU8(Decimal(n)) == Some(n)
  {
    TrimDigits(Decimal(n));
    ParseDecimal(n, 255);
  }

  lemma RenderIsAscii(c: D.CompressionSpec)
    ensures var s := D.Render(c);
            Ascii(s) && s != [] && LF !in s && COLON !in s && s[|s| - 1] != CR
            && Trim(s) == s
  {
    hide Decimal, Trim, DigitsValue;
    if c.Shrink? {
      var w, l := Decimal(c.window), Decimal(c.lookahead);
      DigitsAreAscii(w);
      DigitsAreAscii(l);
      assert l[|l| - 1] in l;
      ShrinkEdges(w, l);
    }
    TrimAsciiEdges(D.Render(c));
  }

  lemma ShrinkEdges(w: bytes, l: bytes)
    requires AllDigits(w) && AllDigits(l) && l != []
    ensures var s := T.HEATSHRINK + w + [COMMA] + l;
            Ascii(s) && LF !in s && COLON !in s && s[0] == 104 && s[|s| - 1] == l[|l| - 1] && IsDigit(s[|s| - 1])
  {
    DigitsAreAscii(w);
    DigitsAreAscii(l);
    assert l[|l| - 1] in l;
  }

  /** Every advertised compression is recovered exactly. */
  lemma CompressionRoundTrip(c: D.CompressionSpec)
    ensures T.ParseCompression(D.Render(c)) == Advertised(c)
  {
    hide Decimal, Trim, SplitOnce, T.ParseU8;
    RenderIsAscii(c);
    if c.Shrink? {
      var w, l := Decimal(c.window), Decimal(c.lookahead);
      DigitsAreAscii(w);
      DigitsAreAscii(l);
      assert D.Render(c) == T.HEATSHRINK + (w + [COMMA] + l);
      assert D.Render(c)[|T.HEATSHRINK|..] == w + [COMMA] + l;
      assert D.Render(c)[0] != T.NONE[0];
      SplitJoined(w, COMMA, l);
      ParseU8RoundTrip(c.window);
      ParseU8RoundTrip(c.lookahead);
    }
  }

  /** `heatshrink,<w>,<l>`, or that followed by a comma and anything. */
  ghost predicate Describes(spec: bytes, w: bytes, l: bytes) {
    && COMMA !in w && COMMA !in l
    && (spec == T.HEATSHRINK + (w + [COMMA] + l)
        || exists rest :: spec == T.HEATSHRINK + (w + [COMMA] + (l + [COMMA] + rest)))
  }

  /**
   * What the host makes of any advertised text: heatshrink with parameters a and b
   * exactly when the trimmed text names it with two fields that read as these
   * bytes, whatever further fields follow; no compression otherwise.
   */
  lemma CompressionParsed(spec: bytes, a: byte, b: byte)
    ensures T.ParseCompression(spec) == T.Heatshrink(a, b)
            <==> exists w, l :: Describes(Trim(spec), w, l) && T.ParseU8(w) == Some(a) && T.ParseU8(l) == Some(b)
    ensures T.ParseCompression(spec).NoCompression? || T.ParseCompression(spec).Heatshrink?
  {
    hide Trim, T.ParseU8, Describes;
    var s := Trim(spec);
    if T.ParseCompression(spec) == T.Heatshrink(a, b) {
      var fields := T.TwoFields(s[|T.HEATSHRINK|..]).value;
      FieldsDescribe(s, fields.0, fields.1);
    }
    if w, l :| Describes(s, w, l) && T.ParseU8(w) == Some(a) && T.ParseU8(l) == Some(b) {
      DescribedFields(s, w, l);
    }
  }

  lemma FieldsDescribe(s: bytes, w: bytes, l: bytes)
    requires T.HEATSHRINK <= s && T.TwoFields(s[|T.HEATSHRINK|..]) == Some((w, l))
    ensures Describes(s, w, l)
  {
    var rest := s[|T.HEATSHRINK|..];
    var more := SplitOnce(rest, COMMA).value.1;
    assert s == T.HEATSHRINK + rest;
    assert rest == w + [COMMA] + more;
    if SplitOnce(more, COMMA).Some? {
      var tail := SplitOnce(more, COMMA).value.1;
      assert more == l + [COMMA] + tail;
      assert s == T.HEATSHRINK + (w + [COMMA] + (l + [COMMA] + tail));
    } else {
      assert s == T.HEATSHRINK + (w + [COMMA] + l);
    }
  }

  lemma DescribedFields(s: bytes, w: bytes, l: bytes)
    requires Describes(s, w, l)
    ensures T.HEATSHRINK <= s && s != T.NONE && T.TwoFields(s[|T.HEATSHRINK|..]) == Some((w, l))
  {
    hide SplitOnce;
    var rest := s[|T.HEATSHRINK|..];
    assert s[0] == T.HEATSHRINK[0] && T.HEATSHRINK[0] != T.NONE[0];
    if s == T.HEATSHRINK + (w + [COMMA] + l) {
      assert rest == w + [COMMA] + l;
      SplitJoined(w, COMMA, l);
      NoSplit(l);
    } else {
      var tail :| s == T.HEATSHRINK + (w + [COMMA] + (l + [COMMA] + tail));
      assert rest == w + [COMMA] + (l + [COMMA] + tail);
      SplitJoined(w, COMMA, l + [COMMA] + tail);
      SplitJoined(l, COMMA, tail);
    }
  }

  lemma NoSplit(s: bytes)
    requires COMMA !in s
    ensures SplitOnce(s, COMMA).None?
  {
  }

  /**
   * `PFT:version:<v>:<spec>` reaches the machine as one text line; an awaiting
   * query then holds exactly v and the advertised compression, for every v
   * without newline or colon.
   */
  lemma VersionRoundTrip(h: Host, m: T.Machine, version: bytes, c: D.CompressionSpec, now: int)
    requires h.inbound == [] && ValidUtf8(version) && LF !in version && COLON !in version
    requires m.state.AwaitingQueryReply?
    ensures Feed(h, D.VersionText(version, c) + [LF], now)
         == Host(Raise(h.core, AsciiLine(D.VersionText(version, c))), [])
    ensures T.HandleAsciiLine(m, D.VersionText(version, c))
         == m.(advertisedVersion := Some(version),
               pending := Some(T.VersionPending(m.requested, Advertised(c), version)))
  {
    hide Feed, Raise, D.VersionText, T.HandleAsciiLine, T.VersionPending, ValidUtf8;
    VersionLineIsText(h, version, c, now);
    VersionLineParsed(m, version, c);
  }

  lemma VersionLineIsText(h: Host, version: bytes, c: D.CompressionSpec, now: int)
    requires h.inbound == [] && ValidUtf8(version) && LF !in version
    ensures Feed(h, D.VersionText(version, c) + [LF], now)
         == Host(Raise(h.core, AsciiLine(D.VersionText(version, c))), [])
  {
    hide ValidUtf8, D.Render, ParseDecimalU8, ParseSync, StripLineEndings, Trim;
    var line, spec := D.VersionText(version, c), D.Render(c);
    RenderIsAscii(c);
    FeedLine(h, line, now);
    assert line[|line| - 1] == spec[|spec| - 1] && spec[|spec| - 1] in spec;
    StripNewline(line);
    assert line[0] == 80;
    VersionTextIsUtf8(version, c);
  }

  lemma VersionTextIsUtf8(version: bytes, c: D.CompressionSpec)
    requires ValidUtf8(version)
    ensures ValidUtf8(D.VersionText(version, c))
  {
    hide ValidUtf8, D.Render, Trim;
    var spec := D.Render(c);
    RenderIsAscii(c);
    AsciiIsUtf8(D.VERSION_PREFIX);
    AsciiIsUtf8([COLON]);
    AsciiIsUtf8(spec);
    Utf8Append([COLON], spec);
    assert version + [COLON] + spec == version + ([COLON] + spec);
    Utf8Append(version, [COLON] + spec);
    Utf8Append(D.VERSION_PREFIX, version + [COLON] + spec);
  }

  lemma VersionLineParsed(m: T.Machine, version: bytes, c: D.CompressionSpec)
    requires COLON !in version && m.state.AwaitingQueryReply?
    ensures T.HandleAsciiLine(m, D.VersionText(version, c))
         == m.(advertisedVersion := Some(version),
               pending := Some(T.VersionPending(m.requested, Advertised(c), version)))
  {
    hide D.Render, T.ParseCompression, T.VersionPending, SplitOnce;
    var line, spec := D.VersionText(version, c), D.Render(c);
    CompressionRoundTrip(c);
    assert T.PFT_VERSION == D.VERSION_PREFIX;
    assert line[|T.PFT_VERSION|..] == version + [COLON] + spec;
    SplitJoined(version, COLON, spec);
  }

  // ----- OPEN -----

  /**
   * The device reads back what OPEN packed: the dummy flag, whether compression
   * is on, and the file name up to its first zero byte, so the whole name exactly
   * when it has none.
   */
  lemma OpenRoundTrip(d: D.Device, negotiated: Option<T.Compression>, name: bytes, dummy: bool)
    ensures var e := D.OpenFields(d, T.OpenPayload(negotiated, name, dummy));
            && e.lastOpenDummy == Some(dummy)
            && e.lastOpenCompressionByte == Some(if negotiated.Some? && negotiated.value.Heatshrink? then 1 else 0)
            && (e.lastOpenFilename == Some(name) <==> 0 !in name)
  {
    hide IndexOf;
    var payload := T.OpenPayload(negotiated, name, dummy);
    assert payload[2..] == name + [0];
    NameField(name);
  }

  /** What precedes the first zero byte is the whole name exactly when the name has none. */
  lemma NameField(name: bytes)
    ensures var field := name + [0]; field[..IndexOf(field, 0)] == name <==> 0 !in name
  {
    hide IndexOf;
    var field := name + [0];
    var k := IndexOf(field, 0);
    if 0 !in name {
      IndexOfUnique(field, 0, |name|);
      assert field[..|name|] == name;
    } else {
      var i :| 0 <= i < |name| && name[i] == 0;
      assert field[i] == 0;
      assert |field[..k]| < |name|;
    }
  }
}
