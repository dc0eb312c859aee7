/**
  What the logger promises: which levels a threshold admits, the exact shape
  of interactive and non-interactive lines, the line-length safeguard, the
  level-name table and the thresholds New chooses.
 */
module NanologProperties {
  import opened GoStrings
  import opened Nanolog

  // ---------------------------------------------------------------------------
  // Filtering

  /** Raising the threshold never silences a level. */
  lemma EnabledMonotone(l: Level, f: int, g: int)
    requires f <= g && Enabled(l, f)
    ensures Enabled(l, g)
  {
  }

  /** A threshold that admits a level admits every more severe level. */
  lemma EnabledBySeverity(f: int)
    ensures Enabled(Level.Debug, f) ==> Enabled(Level.Info, f)
    ensures Enabled(Level.Info, f) ==> Enabled(Level.Warn, f)
    ensures Enabled(Level.Warn, f) ==> Enabled(Level.Error, f)
    ensures Enabled(Level.Fatal, f)
  {
  }

  /** Below Error's rank only Fatal gets through, and from Debug's rank on
      everything does. */
  lemma EnabledExtremes(l: Level, f: int)
    ensures f < LevelError ==> (Enabled(l, f) <==> l == Level.Fatal)
    ensures f >= LevelDebug ==> Enabled(l, f)
  {
  }

  // ---------------------------------------------------------------------------
  // Interactive lines

  /** An interactive line is the colour prefix, the user prefix, the message
      as given (however long, newlines kept) and the reset suffix. */
  lemma InteractiveLine(l: Level, userPrefix: Bytes, message: Bytes)
    ensures Compose(l, true, userPrefix, message) == InPrefix(l) + userPrefix + message + InSuffix + [LF]
    ensures |Compose(l, true, userPrefix, message)| == |InPrefix(l)| + |userPrefix| + |message| + |InSuffix| + 1
  {
  }

  /** Info is not coloured interactively, but its line still ends in the reset
      sequence ESC [ m. */
  lemma InteractiveInfoLine(userPrefix: Bytes, message: Bytes)
    ensures Compose(Level.Info, true, userPrefix, message) == userPrefix + message + "\U{1B}[m\n"
  {
    assert InInfoPrefix + userPrefix == userPrefix;
  }

  // ---------------------------------------------------------------------------
  // Non-interactive lines

  /** A long message keeps its first MaxLine bytes and gets the marker. */
  lemma TruncateLong(message: Bytes)
    requires |message| > MaxLine
    ensures |Truncate(message)| == MaxLine + |TruncatedMarker|
    ensures Truncate(message)[..MaxLine] == message[..MaxLine]
    ensures Truncate(message)[MaxLine..] == TruncatedMarker
  {
  }

  /** The truncation marker is a single line. */
  lemma MarkerHasNoNewline()
    ensures NewlineCount(TruncatedMarker) == 0
  {
    assert forall i :: 0 <= i < |TruncatedMarker| ==> TruncatedMarker[i] != LF;
    NewlineCountZero(TruncatedMarker);
  }

  /** A non-interactive line, with the empty syslog suffix dropped. */
  lemma ComposeNonInteractive(l: Level, userPrefix: Bytes, message: Bytes)
    ensures Compose(l, false, userPrefix, message)
      == UnPrefix(l) + userPrefix + ReplaceAllNewline(Truncate(message), [LF] + UnPrefix(l)) + [LF]
  {
    var body := ReplaceAllNewline(Truncate(message), [LF] + UnPrefix(l));
    assert UnPrefix(l) + userPrefix + body + UnSuffix == UnPrefix(l) + userPrefix + body;
  }

  /** The physical lines of a non-interactive line: the first carries the
      level prefix and the user prefix, every continuation line of the
      (possibly truncated) message carries the level prefix alone, and the
      final newline ends the output. */
  lemma {:induction false} NonInteractiveLines(l: Level, userPrefix: Bytes, message: Bytes)
    requires LF !in userPrefix
    ensures var pieces := Split(Truncate(message));
      Split(Compose(l, false, userPrefix, message))
        == [UnPrefix(l) + userPrefix + pieces[0]] + Prefixed(UnPrefix(l), pieces[1..]) + [[]]
  {
    var p := UnPrefix(l);
    var head := p + userPrefix;
    var body := ReplaceAllNewline(Truncate(message), [LF] + p);
    var pieces := Split(Truncate(message));
    assert Compose(l, false, userPrefix, message) == (head + body) + [LF];
    SplitAppendNewline(head + body);
    SplitPrepend(head, body);
    SplitReplaceAllNewline(Truncate(message), p);
    assert Split(body)[0] == pieces[0];
    assert Split(body)[1..] == Prefixed(p, pieces[1..]);
  }

  /** Newline rewriting keeps the number of lines: the output has one newline
      per newline of the (possibly truncated) message, plus the final one. */
  lemma NonInteractiveLineCount(l: Level, userPrefix: Bytes, message: Bytes)
    requires LF !in userPrefix
    ensures NewlineCount(Compose(l, false, userPrefix, message)) == NewlineCount(Truncate(message)) + 1
  {
    var c := Compose(l, false, userPrefix, message);
    NonInteractiveLines(l, userPrefix, message);
    SplitLength(c);
    SplitLength(Truncate(message));
  }

  /** Every physical line of non-interactive output starts with the level's
      syslog prefix, the first one followed by the user prefix, no line holds
      a newline of its own, and the output ends with its final newline. */
  lemma NonInteractiveEveryLinePrefixed(l: Level, userPrefix: Bytes, message: Bytes)
    requires LF !in userPrefix
    ensures var lines := Split(Compose(l, false, userPrefix, message));
      && UnPrefix(l) + userPrefix <= lines[0]
      && (forall i :: 1 <= i < |lines| - 1 ==> UnPrefix(l) <= lines[i])
      && lines[|lines| - 1] == []
      && (forall i :: 0 <= i < |lines| ==> LF !in lines[i])
  {
    NonInteractiveLines(l, userPrefix, message);
    SplitPiecesNoNewline(Compose(l, false, userPrefix, message));
    var p := UnPrefix(l);
    var pieces := Split(Truncate(message));
    var lines := Split(Compose(l, false, userPrefix, message));
    var mid := Prefixed(p, pieces[1..]);
    assert lines == [p + userPrefix + pieces[0]] + mid + [[]];
    assert lines[0] == p + userPrefix + pieces[0];
    forall i | 1 <= i < |lines| - 1
      ensures p <= lines[i]
    {
      PrefixedAt(p, pieces[1..], i - 1);
      assert lines[i] == mid[i - 1];
    }
  }

  /** A short message without newlines is decorated and nothing else. */
  lemma NonInteractiveSingleLine(l: Level, userPrefix: Bytes, message: Bytes)
    requires LF !in message && |message| <= MaxLine
    ensures Compose(l, false, userPrefix, message) == UnPrefix(l) + userPrefix + message + [LF]
  {
    ReplaceAllNewlineNone(message, [LF] + UnPrefix(l));
    assert UnPrefix(l) + userPrefix + message + UnSuffix == UnPrefix(l) + userPrefix + message;
  }

  /** Fatal has no syslog prefix, so its message is only truncated. */
  lemma NonInteractiveFatalLine(userPrefix: Bytes, message: Bytes)
    ensures Compose(Level.Fatal, false, userPrefix, message) == userPrefix + Truncate(message) + [LF]
  {
    ComposeNonInteractive(Level.Fatal, userPrefix, message);
    assert [LF] + UnPrefix(Level.Fatal) == [LF];
    ReplaceAllNewlineIdentity(Truncate(message));
    assert UnPrefix(Level.Fatal) + userPrefix == userPrefix;
  }

  /** Truncation comes before newline rewriting: newlines after the cut are
      dropped, and the prefixes inserted for the newlines that remain make the
      output longer than the cut without counting against it. */
  lemma NonInteractiveTruncation(l: Level, userPrefix: Bytes, message: Bytes)
    requires |message| > MaxLine
    ensures var kept := NewlineCount(message[..MaxLine]);
      && NewlineCount(Truncate(message)) == kept
      && |Compose(l, false, userPrefix, message)|
           == |UnPrefix(l)| + |userPrefix| + MaxLine + |TruncatedMarker| + kept * |UnPrefix(l)| + 1
  {
    var cut := message[..MaxLine];
    var t := Truncate(message);
    var p := UnPrefix(l);
    var k := NewlineCount(cut);
    TruncateLong(message);
    assert t == cut + TruncatedMarker by {
      assert t == t[..MaxLine] + t[MaxLine..];
    }
    NewlineCountConcat(cut, TruncatedMarker);
    MarkerHasNoNewline();
    ComposeNonInteractive(l, userPrefix, message);
    DecoratedLength(p, userPrefix, t);
  }

  /** The length of a decorated line whose newlines were prefixed with `p`. */
  lemma DecoratedLength(p: Bytes, userPrefix: Bytes, t: Bytes)
    ensures |p + userPrefix + ReplaceAllNewline(t, [LF] + p) + [LF]|
      == |p| + |userPrefix| + |t| + NewlineCount(t) * |p| + 1
  {
    PrefixNewlinesLength(t, p);
  }

  /** A two-line message sent to a service manager: both lines get the level
      prefix, the user prefix precedes only the first (for Error with an empty
      user prefix, "line1\nline2" becomes "<3>line1\n<3>line2\n"). */
  lemma NonInteractiveTwoLines(l: Level, userPrefix: Bytes, first: Bytes, second: Bytes)
    requires LF !in first && LF !in second && |first| + 1 + |second| <= MaxLine
    ensures Compose(l, false, userPrefix, first + [LF] + second)
      == UnPrefix(l) + userPrefix + first + [LF] + UnPrefix(l) + second + [LF]
  {
    var p := UnPrefix(l);
    var m := first + [LF] + second;
    assert Truncate(m) == m;
    ReplaceAllNewlineOne(first, second, [LF] + p);
    ComposeNonInteractive(l, userPrefix, m);
    assert p + userPrefix + (first + ([LF] + p) + second) + [LF]
        == p + userPrefix + first + [LF] + p + second + [LF];
  }

  // ---------------------------------------------------------------------------
  // Level names

  /** The level names are pairwise different. */
  lemma LevelsDistinct()
    ensures forall i, j :: 0 <= i < j < |Levels| ==> Levels[i] != Levels[j]
  {
    assert Levels[0][0] == 'c' && Levels[1][0] == 'e' && Levels[2][0] == 'w';
    assert Levels[3][0] == 'i' && Levels[4][0] == 'd';
  }

  /** The i-th name of the table selects threshold i + 3: "crit" 3, "error" 4,
      "warn" 5, "info" 6 and "debug" 7. */
  lemma NamedFilterTable()
    ensures Levels == ["crit", "error", "warn", "info", "debug"]
    ensures forall i :: 0 <= i < |Levels| ==> IndexOf(Levels, Levels[i]) == Some(i)
  {
    LevelsDistinct();
    forall i | 0 <= i < |Levels|
      ensures IndexOf(Levels, Levels[i]) == Some(i)
    {
      var r := IndexOf(Levels, Levels[i]);
      assert forall k :: 0 <= k < r.value ==> Levels[..r.value][k] == Levels[k];
    }
  }

  /** Every accepted name gives a threshold between crit (3) and debug (7). */
  lemma NamedFilterRange(name: Bytes)
    requires name in Levels
    ensures 3 <= IndexOf(Levels, name).value + 3 <= LevelDebug
  {
  }

  /** Names are matched byte for byte, so case matters. */
  lemma NamedFilterCaseSensitive()
    ensures "WARN" !in Levels && "Warn" !in Levels && "warning" !in Levels
  {
    assert "WARN"[0] != "warn"[0] && "Warn"[0] != "warn"[0] && |"warning"| != |"warn"|;
  }

  /** After NamedFilter("warn") the logger prints warnings but not infos. */
  lemma NamedWarnThreshold()
    ensures Levels[2] == "warn" && IndexOf(Levels, Levels[2]).value + 3 == LevelWarn
    ensures Enabled(Level.Warn, LevelWarn) && !Enabled(Level.Info, LevelWarn)
  {
    NamedFilterTable();
  }

  // ---------------------------------------------------------------------------
  // Construction

  /** A failing probe other than ENOTTY is reported before the filter is
      looked at, whatever the filter. */
  lemma SetupProbeErrorFirst(errno: int, filter: int)
    ensures Setup(ProbeFailed(errno), filter) == Failure(ProbeError(errno))
  {
  }

  /** With a working probe every filter above 7 is rejected with that filter. */
  lemma SetupRejectsAboveDebug(probe: Probe, filter: int)
    requires !probe.ProbeFailed? && filter > LevelDebug
    ensures Setup(probe, filter) == Failure(InvalidLevel(filter))
  {
  }

  /** Filter 0 picks Info for a terminal and Debug for captured output. */
  lemma SetupDefaultThreshold(probe: Probe)
    requires !probe.ProbeFailed?
    ensures Setup(probe, 0).Success?
    ensures Setup(probe, 0).value.filter == if probe.Terminal? then LevelInfo else LevelDebug
  {
  }

  /** The package test's logger New("[prefix] ", LevelWarn) prints warnings
      and hides info and debug messages, as the test expects. */
  lemma SetupWarnTest(probe: Probe)
    requires !probe.ProbeFailed?
    ensures Setup(probe, LevelWarn).Success?
    ensures var f := Setup(probe, LevelWarn).value.filter;
      Enabled(Level.Warn, f) && !Enabled(Level.Info, f) && !Enabled(Level.Debug, f)
  {
  }

  /** As written, an explicit filter of 7 or less other than 0 (negative ones
      too) is accepted but never stored: the threshold stays 0 and only Fatal
      gets through. */
  lemma SetupAsWrittenIgnoresFilter(probe: Probe, filter: int, l: Level)
    requires !probe.ProbeFailed? && filter <= LevelDebug && filter != 0
    ensures SetupAsWritten(probe, filter).Success? && SetupAsWritten(probe, filter).value.filter == 0
    ensures Enabled(l, SetupAsWritten(probe, filter).value.filter) <==> l == Level.Fatal
  {
  }

  /** As written, the package test's logger New("[prefix] ", LevelWarn) does
      not print the warning the test expects to see. */
  lemma SetupAsWrittenWarnTestSilent(probe: Probe)
    requires !probe.ProbeFailed?
    ensures SetupAsWritten(probe, LevelWarn).Success?
    ensures !Enabled(Level.Warn, SetupAsWritten(probe, LevelWarn).value.filter)
  {
  }

  /** The written and the intended construction differ exactly on an
      accepted explicit filter. */
  lemma SetupAsWrittenAgrees(probe: Probe, filter: int)
    ensures SetupAsWritten(probe, filter) == Setup(probe, filter)
      <==> probe.ProbeFailed? || filter == 0 || filter > LevelDebug
  {
  }
}
