/**
 * `read_eeg_file`: each line of a session file becomes one record, or is
 * dropped when any step of its parse raises. A line is stripped and split on
 * commas; fields 0, 1 and 2 are the time stamp, valence and arousal; field 3
 * holds whitespace-separated `Name=Value` channel tokens, of which those
 * starting with `TRG=` (event triggers) are skipped.
 */
module EegReader {
  import opened Wrappers
  import opened PyText
  import opened PyFloat

  /** One parsed line: field name to value (the dict built for each line). */
  type Record = map<string, Num>

  /** The exception that made a line fail, in the order the parse raises them. */
  datatype LineError =
    | MissingField(index: nat)             // IndexError: the line has no field `index`
    | NotANumber(text: string)             // ValueError: `float(text)` failed
    | BadToken(token: string, pieces: nat) // ValueError: `name, value = token.split('=')` got `pieces` pieces

  const TimeStampKey: string := "TimeStamp"
  const ValenceKey: string := "Valence"
  const ArousalKey: string := "Arousal"
  const TriggerPrefix: string := "TRG="

  /** The keys every record starts with. */
  function BaseKeys(): set<string> {
    {TimeStampKey, ValenceKey, ArousalKey}
  }

  function BaseRecord(t: Num, v: Num, a: Num): (r: Record)
    ensures r.Keys == BaseKeys()
  {
    map[TimeStampKey := t, ValenceKey := v, ArousalKey := a]
  }

  /** `line.strip().split(',')` */
  function Fields(line: string): seq<string> {
    Split(Strip(line), ',')
  }

  /** `float(parts[i])`, raising IndexError or ValueError. */
  function NumberField(parts: seq<string>, i: nat): (r: Result<Num, LineError>)
    ensures r.Success? <==> i < |parts| && ParseNum(parts[i]).Some?
    ensures r.Success? ==> r.value == ParseNum(parts[i]).value
    ensures r.Failure? ==> r.error == if i >= |parts| then MissingField(i) else NotANumber(parts[i])
  {
    if i >= |parts| then Failure(MissingField(i))
    else match ParseNum(parts[i])
      case None => Failure(NotANumber(parts[i]))
      case Some(x) => Success(x)
  }

  /** A token the parse skips: it starts with `TRG=`. */
  predicate IsTrigger(token: string) {
    StartsWith(token, TriggerPrefix)
  }

  /** One pass of the token loop: skip a trigger, else unpack `name=value` and store it. */
  function ApplyToken(rec: Record, token: string): (r: Result<Record, LineError>)
    ensures r.Success? ==> rec.Keys <= r.value.Keys
    ensures r.Failure? ==> !IsTrigger(token) && !r.error.MissingField?
  {
    if IsTrigger(token) then Success(rec)
    else
      var pieces := Split(token, '=');
      if |pieces| != 2 then Failure(BadToken(token, |pieces|))
      else match ParseNum(pieces[1])
        case None => Failure(NotANumber(pieces[1]))
        case Some(x) => Success(rec[pieces[0] := x])
  }

  /** The token loop over `tokens`, in order, stopping at the first failure. */
  function ApplyTokens(rec: Record, tokens: seq<string>): (r: Result<Record, LineError>)
    ensures r.Success? ==> rec.Keys <= r.value.Keys
    ensures r.Failure? ==> !r.error.MissingField?
    decreases |tokens|
  {
    if tokens == [] then Success(rec)
    else
      var next :- ApplyToken(rec, tokens[0]);
      ApplyTokens(next, tokens[1..])
  }

  /** The parse of an already split line. */
  function ParseFields(parts: seq<string>): Result<Record, LineError>
  {
    var t :- NumberField(parts, 0);
    var v :- NumberField(parts, 1);
    var a :- NumberField(parts, 2);
    if |parts| < 4 then Failure(MissingField(3))
    else ApplyTokens(BaseRecord(t, v, a), Words(parts[3]))
  }

  /** The body of the `try` block for one line. */
  function ParseRecord(line: string): Result<Record, LineError>
  {
    ParseFields(Fields(line))
  }

  /** Imperative form of the `try` block: the loop over field 3 fills `channelData` in place. */
  method ParseLine(line: string) returns (r: Result<Record, LineError>)
    ensures r == ParseRecord(line)
  {
    var parts := Split(Strip(line), ',');
    var timestamp := ParseNum(parts[0]);
    if timestamp.None? {
      return Failure(NotANumber(parts[0]));
    }
    if |parts| < 2 {
      return Failure(MissingField(1));
    }
    var valence := ParseNum(parts[1]);
    if valence.None? {
      return Failure(NotANumber(parts[1]));
    }
    if |parts| < 3 {
      return Failure(MissingField(2));
    }
    var arousal := ParseNum(parts[2]);
    if arousal.None? {
      return Failure(NotANumber(parts[2]));
    }
    if |parts| < 4 {
      return Failure(MissingField(3));
    }
    var channelData := map[TimeStampKey := timestamp.value, ValenceKey := valence.value, ArousalKey := arousal.value];
    r := FillChannels(channelData, Words(parts[3]));
  }

  /** The `for part in eegParts` loop: each channel token is stored in `channelData` in place, triggers are skipped. */
  method FillChannels(start: Record, eegParts: seq<string>) returns (r: Result<Record, LineError>)
    ensures r == ApplyTokens(start, eegParts)
  {
    var channelData := start;
    var i := 0;
    while i < |eegParts|
      invariant 0 <= i <= |eegParts|
      invariant ApplyTokens(start, eegParts) == ApplyTokens(channelData, eegParts[i..])
    {
      var part := eegParts[i];
      ApplyTokensCons(channelData, eegParts[i..]);
      assert eegParts[i..][1..] == eegParts[i + 1..];
      if !StartsWith(part, TriggerPrefix) {
        var pieces := Split(part, '=');
        if |pieces| != 2 {
          return Failure(BadToken(part, |pieces|));
        }
        var value := ParseNum(pieces[1]);
        if value.None? {
          return Failure(NotANumber(pieces[1]));
        }
        channelData := channelData[pieces[0] := value.value];
      }
      i := i + 1;
    }
    r := Success(channelData);
  }

  /** The token loop takes one step on its first token: it stops at a failure, else runs on the rest. */
  lemma ApplyTokensCons(rec: Record, tokens: seq<string>)
    requires tokens != []
    ensures ApplyToken(rec, tokens[0]).Failure? ==> ApplyTokens(rec, tokens) == Failure(ApplyToken(rec, tokens[0]).error)
    ensures ApplyToken(rec, tokens[0]).Success? ==>
      ApplyTokens(rec, tokens) == ApplyTokens(ApplyToken(rec, tokens[0]).value, tokens[1..])
  {
  }

  // ---------------------------------------------------------------------------
  // Which lines are accepted

  /** The name before the single `=` of a channel token. */
  function ChannelName(token: string): string
    requires Count(token, '=') == 1
  {
    token[..IndexOf(token, '=')]
  }

  /** The value text after the single `=` of a channel token. */
  function ChannelText(token: string): string
    requires Count(token, '=') == 1
  {
    token[IndexOf(token, '=') + 1..]
  }

  /** A token that does not make the line fail: a trigger, or exactly one `=` followed by a number. */
  predicate TokenAccepted(token: string) {
    || IsTrigger(token)
    || (Count(token, '=') == 1 && ParseNum(ChannelText(token)).Some?)
  }

  /** The acceptance rule, stated field by field. */
  predicate LineAccepted(line: string) {
    var parts := Fields(line);
    && |parts| >= 4
    && ParseNum(parts[0]).Some? && ParseNum(parts[1]).Some? && ParseNum(parts[2]).Some?
    && (forall token :: token in Words(parts[3]) ==> TokenAccepted(token))
  }

  /** One token succeeds exactly when it is accepted. */
  lemma ApplyTokenIff(rec: Record, token: string)
    ensures ApplyToken(rec, token).Success? <==> TokenAccepted(token)
  {
    if !IsTrigger(token) {
      SplitCount(token, '=');
      if Count(token, '=') == 1 {
        SplitOnce(token, '=');
      }
    }
  }

  /** An accepted channel token stores its value under its name; a trigger changes nothing. */
  lemma ApplyTokenValue(rec: Record, token: string)
    requires TokenAccepted(token)
    ensures IsTrigger(token) ==> ApplyToken(rec, token) == Success(rec)
    ensures !IsTrigger(token) ==>
      ApplyToken(rec, token) == Success(rec[ChannelName(token) := ParseNum(ChannelText(token)).value])
  {
    if !IsTrigger(token) {
      SplitOnce(token, '=');
    }
  }

  /** The token loop succeeds exactly when every token is accepted. */
  lemma {:induction false} ApplyTokensIff(rec: Record, tokens: seq<string>)
    ensures ApplyTokens(rec, tokens).Success? <==> forall token :: token in tokens ==> TokenAccepted(token)
    decreases |tokens|
  {
    if tokens != [] {
      var step := ApplyToken(rec, tokens[0]);
      ApplyTokenIff(rec, tokens[0]);
      if step.Success? {
        ApplyTokensIff(step.value, tokens[1..]);
        assert tokens == [tokens[0]] + tokens[1..];
      }
    }
  }

  /** A line yields a record if and only if it satisfies the acceptance rule. */
  lemma LineAcceptedIff(line: string)
    ensures ParseRecord(line).Success? <==> LineAccepted(line)
  {
    var parts := Fields(line);
    var t, v, a := NumberField(parts, 0), NumberField(parts, 1), NumberField(parts, 2);
    if t.Success? && v.Success? && a.Success? && |parts| >= 4 {
      var base := BaseRecord(t.value, v.value, a.value);
      assert ParseRecord(line) == ApplyTokens(base, Words(parts[3]));
      ApplyTokensIff(base, Words(parts[3]));
    } else {
      assert ParseRecord(line).Failure?;
      assert !LineAccepted(line);
    }
  }

  /** The exception a rejected channel token raises: its piece count, or else its value text. */
  function TokenError(token: string): LineError {
    if Count(token, '=') != 1 then BadToken(token, Count(token, '=') + 1)
    else NotANumber(ChannelText(token))
  }

  /** Token `j` is the first one the loop rejects: every token before it is accepted. */
  predicate FirstRejected(tokens: seq<string>, j: nat) {
    && j < |tokens|
    && !TokenAccepted(tokens[j])
    && forall k :: 0 <= k < j ==> TokenAccepted(tokens[k])
  }

  /** The three leading fields are present and parse, and field 3 exists. */
  predicate LeadingParsed(parts: seq<string>) {
    && |parts| >= 4
    && ParseNum(parts[0]).Some? && ParseNum(parts[1]).Some? && ParseNum(parts[2]).Some?
  }

  /**
   * Every failure names its cause, in the order the parse meets them: the
   * first leading field that is missing or not a number, after the ones
   * before it parsed; else the first channel token the loop rejects.
   */
  lemma FailureCause(line: string)
    requires ParseRecord(line).Failure?
    ensures var parts := Fields(line);
      var e := ParseRecord(line).error;
      match e
      case MissingField(i) =>
        && 1 <= i <= 3 && i == |parts|
        && ParseNum(parts[0]).Some?
        && (i > 1 ==> ParseNum(parts[1]).Some?)
        && (i > 2 ==> ParseNum(parts[2]).Some?)
      case NotANumber(text) =>
        || (text == parts[0] && ParseNum(parts[0]).None?)
        || (|parts| > 1 && text == parts[1] && ParseNum(parts[0]).Some? && ParseNum(parts[1]).None?)
        || (|parts| > 2 && text == parts[2] && ParseNum(parts[0]).Some? && ParseNum(parts[1]).Some?
            && ParseNum(parts[2]).None?)
        || (LeadingParsed(parts) && exists j: nat :: FirstRejected(Words(parts[3]), j) && e == TokenError(Words(parts[3])[j]))
      case BadToken(_, _) =>
        LeadingParsed(parts) && exists j: nat :: FirstRejected(Words(parts[3]), j) && e == TokenError(Words(parts[3])[j])
  {
    var parts := Fields(line);
    var t, v, a := NumberField(parts, 0), NumberField(parts, 1), NumberField(parts, 2);
    if t.Success? && v.Success? && a.Success? && |parts| >= 4 {
      var base := BaseRecord(t.value, v.value, a.value);
      assert ParseRecord(line) == ApplyTokens(base, Words(parts[3]));
      TokensFailureCause(base, Words(parts[3]));
    }
  }

  /** A failing token is rejected, is not a trigger, and names its own cause. */
  lemma TokenFailureCause(rec: Record, token: string)
    requires ApplyToken(rec, token).Failure?
    ensures !IsTrigger(token) && !TokenAccepted(token)
    ensures ApplyToken(rec, token).error == TokenError(token)
    ensures match ApplyToken(rec, token).error
      case MissingField(_) => false
      case NotANumber(text) => Count(token, '=') == 1 && ChannelText(token) == text
      case BadToken(t, n) => t == token && n == Count(token, '=') + 1 && n != 2
  {
    SplitCount(token, '=');
    if Count(token, '=') == 1 {
      SplitOnce(token, '=');
    }
  }

  /** A failing token loop fails on its first rejected token, with that token's exception. */
  lemma TokensFailureCause(rec: Record, tokens: seq<string>)
    requires ApplyTokens(rec, tokens).Failure?
    ensures exists j: nat :: FirstRejected(tokens, j) && ApplyTokens(rec, tokens).error == TokenError(tokens[j])
  {
    var j := FirstFailure(rec, tokens);
  }

  /** The index of the token the loop fails on. */
  lemma {:induction false} FirstFailure(rec: Record, tokens: seq<string>) returns (j: nat)
    requires ApplyTokens(rec, tokens).Failure?
    ensures FirstRejected(tokens, j) && ApplyTokens(rec, tokens).error == TokenError(tokens[j])
    decreases |tokens|
  {
    var token := tokens[0];
    var step := ApplyToken(rec, token);
    if step.Failure? {
      assert ApplyTokens(rec, tokens) == Failure(step.error);
      TokenFailureCause(rec, token);
      j := 0;
    } else {
      ApplyTokenIff(rec, token);
      assert ApplyTokens(rec, tokens) == ApplyTokens(step.value, tokens[1..]);
      var k := FirstFailure(step.value, tokens[1..]);
      FirstRejectedCons(tokens, k);
      j := k + 1;
    }
  }

  /** An accepted token in front moves the first rejected token one place on. */
  lemma FirstRejectedCons(tokens: seq<string>, j: nat)
    requires tokens != [] && TokenAccepted(tokens[0]) && FirstRejected(tokens[1..], j)
    ensures FirstRejected(tokens, j + 1) && tokens[j + 1] == tokens[1..][j]
  {
    forall k | 0 <= k < j + 1 ensures TokenAccepted(tokens[k]) {
      if k > 0 {
        assert tokens[k] == tokens[1..][k - 1];
      }
    }
  }

  // ---------------------------------------------------------------------------
  // What an accepted record holds

  /** `token` is a channel token that stores a value under `name`. */
  predicate Stores(token: string, name: string) {
    !IsTrigger(token) && Count(token, '=') == 1 && ChannelName(token) == name
  }

  /** The channel names a token sequence stores. */
  function ChannelNames(tokens: seq<string>): set<string> {
    set token | token in tokens && !IsTrigger(token) && Count(token, '=') == 1 :: ChannelName(token)
  }

  /** The token loop keeps every key it starts with and adds exactly one key per channel token. */
  lemma {:induction false} TokensKeys(rec: Record, tokens: seq<string>)
    requires ApplyTokens(rec, tokens).Success?
    ensures ApplyTokens(rec, tokens).value.Keys == rec.Keys + ChannelNames(tokens)
    decreases |tokens|
  {
    if tokens != [] {
      var token := tokens[0];
      ApplyTokenIff(rec, token);
      ApplyTokenValue(rec, token);
      var next := ApplyToken(rec, token).value;
      TokensKeys(next, tokens[1..]);
      ChannelNamesCons(tokens);
    }
  }

  lemma ChannelNamesCons(tokens: seq<string>)
    requires tokens != [] && TokenAccepted(tokens[0])
    ensures IsTrigger(tokens[0]) ==> ChannelNames(tokens) == ChannelNames(tokens[1..])
    ensures !IsTrigger(tokens[0]) ==> ChannelNames(tokens) == {ChannelName(tokens[0])} + ChannelNames(tokens[1..])
  {
    var token, rest := tokens[0], tokens[1..];
    forall x | x in ChannelNames(tokens)
      ensures x in ChannelNames(rest) || (!IsTrigger(token) && x == ChannelName(token))
    {
      var t :| t in tokens && !IsTrigger(t) && Count(t, '=') == 1 && ChannelName(t) == x;
      if t != token {
        assert t in rest;
      }
    }
    forall x | x in ChannelNames(rest)
      ensures x in ChannelNames(tokens)
    {
      var t :| t in rest && !IsTrigger(t) && Count(t, '=') == 1 && ChannelName(t) == x;
      assert t in tokens;
    }
    if !IsTrigger(token) {
      assert ChannelName(token) in ChannelNames(tokens);
    }
  }

  /** A name no token stores keeps the value it started with (or stays absent). */
  lemma {:induction false} UnstoredKeepsValue(rec: Record, tokens: seq<string>, name: string)
    requires ApplyTokens(rec, tokens).Success?
    requires forall k :: 0 <= k < |tokens| ==> !Stores(tokens[k], name)
    ensures name in ApplyTokens(rec, tokens).value <==> name in rec
    ensures name in rec ==> ApplyTokens(rec, tokens).value[name] == rec[name]
    decreases |tokens|
  {
    if tokens != [] {
      var token := tokens[0];
      ApplyTokenIff(rec, token);
      ApplyTokenValue(rec, token);
      assert !Stores(tokens[0], name);
      UnstoredKeepsValue(ApplyToken(rec, token).value, tokens[1..], name);
    }
  }

  /** A repeated name keeps the value of its last token: later tokens overwrite earlier ones. */
  lemma {:induction false} LastTokenWins(rec: Record, tokens: seq<string>, j: nat, name: string)
    requires ApplyTokens(rec, tokens).Success?
    requires j < |tokens| && Stores(tokens[j], name)
    requires forall k :: j < k < |tokens| ==> !Stores(tokens[k], name)
    ensures name in ApplyTokens(rec, tokens).value && ParseNum(ChannelText(tokens[j])).Some?
    ensures ApplyTokens(rec, tokens).value[name] == ParseNum(ChannelText(tokens[j])).value
    decreases |tokens|
  {
    var token, rest := tokens[0], tokens[1..];
    assert ApplyToken(rec, token).Success?;
    ApplyTokenIff(rec, token);
    ApplyTokenValue(rec, token);
    var next := ApplyToken(rec, token).value;
    assert ApplyTokens(rec, tokens) == ApplyTokens(next, rest);
    if j == 0 {
      assert forall k :: 0 <= k < |rest| ==> !Stores(rest[k], name) by {
        forall k | 0 <= k < |rest| ensures !Stores(rest[k], name) {
          assert rest[k] == tokens[k + 1];
        }
      }
      UnstoredKeepsValue(next, rest, name);
    } else {
      assert rest[j - 1] == tokens[j];
      assert forall k :: j - 1 < k < |rest| ==> !Stores(rest[k], name) by {
        forall k | j - 1 < k < |rest| ensures !Stores(rest[k], name) {
          assert rest[k] == tokens[k + 1];
        }
      }
      LastTokenWins(next, rest, j - 1, name);
    }
  }

  /** A token starting with `TRG=` never changes the outcome, wherever it stands. */
  lemma {:induction false} TriggerIgnored(rec: Record, before: seq<string>, token: string, after: seq<string>)
    requires IsTrigger(token)
    ensures ApplyTokens(rec, before + [token] + after) == ApplyTokens(rec, before + after)
    decreases |before|
  {
    if before == [] {
      assert before + [token] + after == [token] + after;
      assert ([token] + after)[1..] == after;
      assert before + after == after;
    } else {
      assert (before + [token] + after)[0] == before[0];
      assert (before + [token] + after)[1..] == before[1..] + [token] + after;
      assert (before + after)[0] == before[0];
      assert (before + after)[1..] == before[1..] + after;
      var step := ApplyToken(rec, before[0]);
      if step.Success? {
        TriggerIgnored(step.value, before[1..], token, after);
      }
    }
  }

  /** No token of `tokens` stores a value under `name`. */
  predicate NoneStores(tokens: seq<string>, name: string) {
    forall k :: 0 <= k < |tokens| ==> !Stores(tokens[k], name)
  }

  /** An accepted line's record is the token loop run from the three leading fields. */
  lemma AcceptedRecord(line: string)
    requires ParseRecord(line).Success?
    ensures var parts := Fields(line);
      && |parts| >= 4
      && ParseNum(parts[0]).Some? && ParseNum(parts[1]).Some? && ParseNum(parts[2]).Some?
      && ParseRecord(line) == ApplyTokens(BaseRecord(ParseNum(parts[0]).value, ParseNum(parts[1]).value,
                                                     ParseNum(parts[2]).value), Words(parts[3]))
  {
    LineAcceptedIff(line);
  }

  /** An accepted line holds the three leading fields and one key per channel token, and nothing else. */
  lemma RecordKeys(line: string)
    requires ParseRecord(line).Success?
    ensures var parts := Fields(line);
      |parts| >= 4 && ParseRecord(line).value.Keys == BaseKeys() + ChannelNames(Words(parts[3]))
  {
    AcceptedRecord(line);
    var parts := Fields(line);
    TokensKeys(BaseRecord(ParseNum(parts[0]).value, ParseNum(parts[1]).value, ParseNum(parts[2]).value),
               Words(parts[3]));
  }

  /** The key under which leading field `i` (0, 1 or 2) is stored. */
  function LeadingKey(i: nat): string
    requires i < 3
  {
    [TimeStampKey, ValenceKey, ArousalKey][i]
  }

  /** A leading field keeps its own value unless a channel token of the same name overwrites it. */
  lemma RecordLeadingField(line: string, i: nat)
    requires ParseRecord(line).Success? && i < 3
    requires |Fields(line)| >= 4 && NoneStores(Words(Fields(line)[3]), LeadingKey(i))
    ensures LeadingKey(i) in ParseRecord(line).value && ParseNum(Fields(line)[i]).Some?
    ensures ParseRecord(line).value[LeadingKey(i)] == ParseNum(Fields(line)[i]).value
  {
    AcceptedRecord(line);
    var parts := Fields(line);
    var t, v, a := ParseNum(parts[0]).value, ParseNum(parts[1]).value, ParseNum(parts[2]).value;
    LeadingFieldKept(t, v, a, Words(parts[3]), i);
    if i == 0 {
      assert [t, v, a][i] == t;
    } else if i == 1 {
      assert [t, v, a][i] == v;
    } else {
      assert [t, v, a][i] == a;
    }
  }

  lemma LeadingFieldKept(t: Num, v: Num, a: Num, tokens: seq<string>, i: nat)
    requires i < 3 && ApplyTokens(BaseRecord(t, v, a), tokens).Success? && NoneStores(tokens, LeadingKey(i))
    ensures LeadingKey(i) in ApplyTokens(BaseRecord(t, v, a), tokens).value
    ensures ApplyTokens(BaseRecord(t, v, a), tokens).value[LeadingKey(i)] == [t, v, a][i]
  {
    UnstoredKeepsValue(BaseRecord(t, v, a), tokens, LeadingKey(i));
  }

  /** Comma fields after the fourth play no part in the parse. */
  lemma ExtraFieldsIgnored(parts: seq<string>)
    requires |parts| > 4
    ensures ParseFields(parts) == ParseFields(parts[..4])
  {
    var first := parts[..4];
    NumberFieldSame(parts, first, 0);
    NumberFieldSame(parts, first, 1);
    NumberFieldSame(parts, first, 2);
    assert first[3] == parts[3];
  }

  lemma NumberFieldSame(p: seq<string>, q: seq<string>, i: nat)
    requires i < |p| && i < |q| && p[i] == q[i]
    ensures NumberField(p, i) == NumberField(q, i)
  {
  }

  // ---------------------------------------------------------------------------
  // The session: one row per accepted line

  /** The rows one line contributes: its record, or nothing when the parse raised. */
  function Row(line: string): (rows: seq<Record>)
    ensures |rows| <= 1
  {
    match ParseRecord(line)
    case Success(r) => [r]
    case Failure(_) => []
  }

  /** The rows of a file: the records of the accepted lines, in file order. */
  function Session(lines: seq<string>): (rows: seq<Record>)
    ensures |rows| <= |lines|
    decreases |lines|, 1
  {
    if lines == [] then [] else RowsFrom(lines[0], lines[1..])
  }

  /** One pass of the loop, on `line`, followed by the rest of the file. */
  function RowsFrom(line: string, rest: seq<string>): (rows: seq<Record>)
    ensures |rows| <= |rest| + 1
    decreases |rest| + 1, 0
  {
    Row(line) + Session(rest)
  }

  /** The rows of a non-empty file: the first line's, then the rest's. */
  lemma SessionCons(lines: seq<string>)
    requires lines != []
    ensures Session(lines) == Row(lines[0]) + Session(lines[1..])
  {
  }

  /** Each line's parse is independent of the others: the rows of a concatenation are the concatenated rows. */
  lemma {:induction false} SessionAppend(a: seq<string>, b: seq<string>)
    ensures Session(a + b) == Session(a) + Session(b)
    decreases |a|
  {
    if a == [] {
      assert a + b == b;
    } else {
      assert (a + b)[0] == a[0];
      assert (a + b)[1..] == a[1..] + b;
      SessionAppend(a[1..], b);
    }
  }

  /** Reading one more line appends that line's row. */
  lemma SessionSnoc(lines: seq<string>, line: string)
    ensures Session(lines + [line]) == Session(lines) + Row(line)
  {
    SessionAppend(lines, [line]);
    assert Session([line]) == Row(line) + Session([]);
  }

  /** The rows of the first `i + 1` lines are those of the first `i` lines and then line `i`'s. */
  lemma SessionPrefix(lines: seq<string>, i: nat)
    requires i < |lines|
    ensures Session(lines[..i + 1]) == Session(lines[..i]) + Row(lines[i])
  {
    assert lines[..i + 1] == lines[..i] + [lines[i]];
    SessionSnoc(lines[..i], lines[i]);
  }

  /** The session is empty exactly when no line parses. */
  lemma {:induction false} SessionEmptyIff(lines: seq<string>)
    ensures Session(lines) == [] <==> forall line :: line in lines ==> ParseRecord(line).Failure?
    decreases |lines|
  {
    if lines != [] {
      SessionEmptyIff(lines[1..]);
      assert lines == [lines[0]] + lines[1..];
    }
  }

  /** Every row is the record of some line of the file, and every accepted line gives a row. */
  lemma {:induction false} SessionRows(lines: seq<string>)
    ensures forall r :: r in Session(lines) ==> exists line :: line in lines && ParseRecord(line) == Success(r)
    ensures forall line :: line in lines && ParseRecord(line).Success? ==> ParseRecord(line).value in Session(lines)
    decreases |lines|
  {
    if lines != [] {
      SessionRows(lines[1..]);
      assert lines == [lines[0]] + lines[1..];
      forall line | line in lines && ParseRecord(line).Success?
        ensures ParseRecord(line).value in Session(lines)
      {
        if line != lines[0] {
          assert line in lines[1..];
        }
      }
    }
  }

  /** Every row holds the time stamp, valence and arousal keys. */
  lemma {:induction false} SessionBaseKeys(lines: seq<string>)
    ensures forall i :: 0 <= i < |Session(lines)| ==> BaseKeys() <= Session(lines)[i].Keys
    decreases |lines|
  {
    if lines != [] {
      SessionCons(lines);
      SessionBaseKeys(lines[1..]);
      if ParseRecord(lines[0]).Success? {
        RecordKeys(lines[0]);
      }
    }
  }

  /** `read_eeg_file` over the lines of a file: `data` gains one record per accepted line. */
  method ReadSession(lines: seq<string>) returns (data: seq<Record>)
    ensures data == Session(lines)
  {
    data := [];
    var i := 0;
    while i < |lines|
      invariant 0 <= i <= |lines|
      invariant data == Session(lines[..i])
    {
      SessionPrefix(lines, i);
      var parsed := ParseLine(lines[i]);
      if parsed.Success? {
        data := data + [parsed.value];
      }
      i := i + 1;
    }
    assert lines[..i] == lines;
  }

  // ---------------------------------------------------------------------------
  // Well-formed lines: `<t>,<v>,<a>,<name>=<x> ... TRG=<marker>`

  /** A channel name a well-formed line carries: no whitespace, `,` or `=`, and not `TRG`. */
  predicate PlainName(name: string) {
    NoSpace(name) && ',' !in name && '=' !in name && name != "TRG"
  }

  /** A trigger marker a well-formed line carries: no whitespace and no `,`. */
  predicate PlainMarker(marker: string) {
    NoSpace(marker) && ',' !in marker
  }

  function ChannelToken(name: string, value: int): string {
    name + "=" + IntText(value)
  }

  function ChannelTokens(channels: seq<(string, int)>): (tokens: seq<string>)
    ensures |tokens| == |channels|
  {
    if channels == [] then []
    else [ChannelToken(channels[0].0, channels[0].1)] + ChannelTokens(channels[1..])
  }

  /** The `i`-th channel token is the token of the `i`-th channel. */
  lemma {:induction false} ChannelTokensAt(channels: seq<(string, int)>, i: nat)
    requires i < |channels|
    ensures ChannelTokens(channels)[i] == ChannelToken(channels[i].0, channels[i].1)
    decreases i
  {
    if i > 0 {
      ChannelTokensAt(channels[1..], i - 1);
    }
  }

  function TriggerTokens(marker: Option<string>): seq<string> {
    if marker.Some? then [TriggerPrefix + marker.value] else []
  }

  /** The text of a well-formed line with integer fields, channels in order, and an optional trigger at the end. */
  function LineText(t: int, v: int, a: int, channels: seq<(string, int)>, marker: Option<string>): string {
    Join([IntText(t), IntText(v), IntText(a), Unwords(ChannelTokens(channels) + TriggerTokens(marker))], ',')
  }

  /** The record that storing `channels` in order into `rec` gives: a later name overwrites an earlier one. */
  function Stored(rec: Record, channels: seq<(string, int)>): Record
    decreases |channels|
  {
    if channels == [] then rec
    else Stored(rec[channels[0].0 := Finite(channels[0].1 as real)], channels[1..])
  }

  lemma {:induction false} StoredKeys(rec: Record, channels: seq<(string, int)>)
    ensures Stored(rec, channels).Keys == rec.Keys + set i | 0 <= i < |channels| :: channels[i].0
    decreases |channels|
  {
    if channels != [] {
      StoredKeys(rec[channels[0].0 := Finite(channels[0].1 as real)], channels[1..]);
      var rest := set i | 0 <= i < |channels| - 1 :: channels[1..][i].0;
      var all := set i | 0 <= i < |channels| :: channels[i].0;
      assert all == {channels[0].0} + rest by {
        forall x | x in all ensures x in {channels[0].0} + rest {
          var i :| 0 <= i < |channels| && channels[i].0 == x;
          if i > 0 {
            assert channels[1..][i - 1].0 == x;
          }
        }
        forall x | x in rest ensures x in all {
          var i :| 0 <= i < |channels| - 1 && channels[1..][i].0 == x;
          assert channels[i + 1].0 == x;
        }
      }
    }
  }

  /** A name without `=` that is not `TRG`, followed by `=`, does not start with `TRG=`. */
  lemma NameTokenNotTrigger(name: string, rest: string)
    requires '=' !in name && name != "TRG"
    ensures !IsTrigger(name + "=" + rest)
  {
    var token := name + "=" + rest;
    if |name| >= 4 {
      assert token[3] == name[3];
    } else if |name| == 3 {
      assert token[..3] == name;
    } else {
      assert token[|name|] == '=';
    }
  }

  /** A channel token is a non-trigger token with one `=`, whose name and value text are its parts. */
  lemma ChannelTokenParts(name: string, value: int)
    requires PlainName(name)
    ensures var token := ChannelToken(name, value);
      && token != [] && NoSpace(token) && ',' !in token
      && !IsTrigger(token) && Count(token, '=') == 1
      && ChannelName(token) == name && ChannelText(token) == IntText(value)
  {
    IntTextPlain(value);
    NameValueParts(name, IntText(value));
  }

  /** An integer's text holds no whitespace, no `,` and no `=`. */
  lemma IntTextPlain(i: int)
    ensures NoSpace(IntText(i)) && ',' !in IntText(i) && '=' !in IntText(i)
  {
    IntTextChars(i);
  }

  /** `name=text` for a plain name and a text without whitespace, `,` or `=`. */
  lemma NameValueParts(name: string, text: string)
    requires PlainName(name)
    requires NoSpace(text) && ',' !in text && '=' !in text
    ensures var token := name + "=" + text;
      && token != [] && NoSpace(token) && ',' !in token
      && !IsTrigger(token) && Count(token, '=') == 1
      && ChannelName(token) == name && ChannelText(token) == text
  {
    var token := name + "=" + text;
    assert token == name + ['='] + text;
    CountSplit(name, text, '=');
    assert Count(text, '=') == 0;
    IndexAfter(name, '=', text);
    NameTokenNotTrigger(name, text);
    assert token[..|name|] == name;
    assert token[|name| + 1..] == text;
    forall k | 0 <= k < |token| ensures !IsSpace(token[k]) {
      if k < |name| {
        assert token[k] == name[k];
      } else if k > |name| {
        assert token[k] == text[k - |name| - 1];
      }
    }
  }

  /** A trailing trigger token leaves the record as it is. */
  lemma TriggerTokensStore(rec: Record, marker: Option<string>)
    ensures ApplyTokens(rec, TriggerTokens(marker)) == Success(rec)
  {
    if marker.Some? {
      var tokens := TriggerTokens(marker);
      assert IsTrigger(tokens[0]);
      ApplyTokenValue(rec, tokens[0]);
      assert tokens[1..] == [];
    }
  }

  /** One well-formed channel token stores its integer value under its name. */
  lemma ChannelTokenStep(rec: Record, name: string, value: int)
    requires PlainName(name)
    ensures ApplyToken(rec, ChannelToken(name, value)) == Success(rec[name := Finite(value as real)])
  {
    ChannelTokenParts(name, value);
    ParseIntText(value);
    ApplyTokenValue(rec, ChannelToken(name, value));
  }

  /** The token loop over well-formed channel tokens and a trigger stores every channel in order. */
  lemma {:induction false} ChannelTokensStore(rec: Record, channels: seq<(string, int)>, marker: Option<string>)
    requires forall i :: 0 <= i < |channels| ==> PlainName(channels[i].0)
    ensures ApplyTokens(rec, ChannelTokens(channels) + TriggerTokens(marker)) == Success(Stored(rec, channels))
    decreases |channels|
  {
    var tokens := ChannelTokens(channels) + TriggerTokens(marker);
    if channels == [] {
      assert tokens == TriggerTokens(marker);
      TriggerTokensStore(rec, marker);
    } else {
      var name, value := channels[0].0, channels[0].1;
      var next := rec[name := Finite(value as real)];
      assert tokens[0] == ChannelToken(name, value);
      assert tokens[1..] == ChannelTokens(channels[1..]) + TriggerTokens(marker);
      ChannelTokenStep(rec, name, value);
      ApplyTokensCons(rec, tokens);
      ChannelTokensStore(next, channels[1..], marker);
    }
  }

  /** Tokens that are all plain. */
  predicate PlainTokens(tokens: seq<string>) {
    forall i :: 0 <= i < |tokens| ==> PlainToken(tokens[i])
  }

  /** A token that is non-empty and holds no whitespace and no comma. */
  predicate PlainToken(token: string) {
    token != [] && NoSpace(token) && ',' !in token
  }

  lemma ChannelTokenPlain(name: string, value: int)
    requires PlainName(name)
    ensures PlainToken(ChannelToken(name, value))
  {
    ChannelTokenParts(name, value);
  }

  lemma TriggerTokensPlain(marker: Option<string>)
    requires marker.Some? ==> PlainMarker(marker.value)
    ensures PlainTokens(TriggerTokens(marker))
  {
    if marker.Some? {
      var token := TriggerPrefix + marker.value;
      assert forall k :: 4 <= k < |token| ==> token[k] == marker.value[k - 4];
      assert PlainToken(token);
      assert TriggerTokens(marker) == [token];
    }
  }

  /** The tokens of a well-formed line are plain. */
  lemma LineTokensPlain(channels: seq<(string, int)>, marker: Option<string>)
    requires forall i :: 0 <= i < |channels| ==> PlainName(channels[i].0)
    requires marker.Some? ==> PlainMarker(marker.value)
    ensures PlainTokens(ChannelTokens(channels) + TriggerTokens(marker))
  {
    ChannelTokensPlain(channels);
    TriggerTokensPlain(marker);
    PlainTokensAppend(ChannelTokens(channels), TriggerTokens(marker));
  }

  lemma ChannelTokensPlain(channels: seq<(string, int)>)
    requires forall i :: 0 <= i < |channels| ==> PlainName(channels[i].0)
    ensures PlainTokens(ChannelTokens(channels))
  {
    var tokens := ChannelTokens(channels);
    forall i | 0 <= i < |tokens| ensures PlainToken(tokens[i]) {
      ChannelTokensAt(channels, i);
      ChannelTokenPlain(channels[i].0, channels[i].1);
    }
  }

  lemma PlainTokensAppend(front: seq<string>, back: seq<string>)
    requires PlainTokens(front) && PlainTokens(back)
    ensures PlainTokens(front + back)
  {
    var tokens := front + back;
    forall i | 0 <= i < |tokens| ensures PlainToken(tokens[i]) {
      if i < |front| {
        assert tokens[i] == front[i];
      } else {
        assert tokens[i] == back[i - |front|];
      }
    }
  }

  /** Four comma-free fields joined with commas, not padded with whitespace, split back into themselves. */
  lemma FieldsOfJoin(p: string, q: string, r: string, w: string)
    requires ',' !in p && ',' !in q && ',' !in r && ',' !in w
    requires p != [] && !IsSpace(p[0])
    requires w == [] || !IsSpace(w[|w| - 1])
    ensures Fields(Join([p, q, r, w], ',')) == [p, q, r, w]
  {
    var parts := [p, q, r, w];
    var line := Join(parts, ',');
    var tail := r + [','] + w;
    assert Join(parts[2..], ',') == tail;
    assert Join(parts[1..], ',') == q + [','] + tail;
    assert line == p + [','] + (q + [','] + tail);
    assert line[0] == p[0];
    assert line[|line| - 1] == tail[|tail| - 1];
    StripUnpadded(line);
    SplitJoin(parts, ',');
  }

  /** An integer's text is a non-empty, comma-free field that does not start with whitespace. */
  lemma IntTextField(i: int)
    ensures IntText(i) != [] && !IsSpace(IntText(i)[0]) && ',' !in IntText(i)
  {
    IntTextChars(i);
  }

  /** Three comma-free fields and the words of plain tokens, joined with commas, split back into themselves. */
  lemma TokensLineFields(x: string, y: string, z: string, tokens: seq<string>)
    requires x != [] && !IsSpace(x[0])
    requires ',' !in x && ',' !in y && ',' !in z
    requires PlainTokens(tokens)
    ensures Fields(Join([x, y, z, Unwords(tokens)], ',')) == [x, y, z, Unwords(tokens)]
  {
    var w := Unwords(tokens);
    UnwordsAvoids(tokens, ',');
    UnwordsEnd(tokens);
    FieldsOfJoin(x, y, z, w);
  }

  /** A well-formed line neither starts nor ends with whitespace and splits into its four fields. */
  lemma LineTextFields(t: int, v: int, a: int, channels: seq<(string, int)>, marker: Option<string>)
    requires forall i :: 0 <= i < |channels| ==> PlainName(channels[i].0)
    requires marker.Some? ==> PlainMarker(marker.value)
    ensures var fields := Fields(LineText(t, v, a, channels, marker));
      && |fields| == 4 && fields[0] == IntText(t) && fields[1] == IntText(v) && fields[2] == IntText(a)
      && fields[3] == Unwords(ChannelTokens(channels) + TriggerTokens(marker))
  {
    var tokens := ChannelTokens(channels) + TriggerTokens(marker);
    LineTokensPlain(channels, marker);
    IntTextField(t);
    IntTextField(v);
    IntTextField(a);
    TokensLineFields(IntText(t), IntText(v), IntText(a), tokens);
  }

  /** Four fields whose first three are numbers parse to the token loop over the words of the fourth. */
  lemma ParseFieldsOf(parts: seq<string>, x: Num, y: Num, z: Num)
    requires |parts| == 4
    requires ParseNum(parts[0]) == Some(x)
    requires ParseNum(parts[1]) == Some(y)
    requires ParseNum(parts[2]) == Some(z)
    ensures ParseFields(parts) == ApplyTokens(BaseRecord(x, y, z), Words(parts[3]))
  {
  }

  /** Three integer fields parse to their values, and the fourth to the token loop over its words. */
  lemma IntFieldsParse(parts: seq<string>, t: int, v: int, a: int)
    requires |parts| == 4 && parts[0] == IntText(t) && parts[1] == IntText(v) && parts[2] == IntText(a)
    ensures ParseFields(parts)
         == ApplyTokens(BaseRecord(Finite(t as real), Finite(v as real), Finite(a as real)), Words(parts[3]))
  {
    ParseIntText(t);
    ParseIntText(v);
    ParseIntText(a);
    ParseFieldsOf(parts, Finite(t as real), Finite(v as real), Finite(a as real));
  }

  /** A line with three integer fields and plain tokens in the fourth parses to the token loop over them. */
  lemma LineRecordOf(line: string, t: int, v: int, a: int, tokens: seq<string>)
    requires var fields := Fields(line);
      && |fields| == 4 && fields[0] == IntText(t) && fields[1] == IntText(v) && fields[2] == IntText(a)
      && fields[3] == Unwords(tokens)
    requires PlainTokens(tokens)
    ensures ParseRecord(line) == ApplyTokens(BaseRecord(Finite(t as real), Finite(v as real), Finite(a as real)), tokens)
  {
    WordsUnwords(tokens);
    IntFieldsParse(Fields(line), t, v, a);
  }

  /** A well-formed line's record is the token loop over its tokens, from its three integer fields. */
  lemma LineTextRecord(t: int, v: int, a: int, channels: seq<(string, int)>, marker: Option<string>)
    requires forall i :: 0 <= i < |channels| ==> PlainName(channels[i].0)
    requires marker.Some? ==> PlainMarker(marker.value)
    ensures ParseRecord(LineText(t, v, a, channels, marker))
         == ApplyTokens(BaseRecord(Finite(t as real), Finite(v as real), Finite(a as real)),
                        ChannelTokens(channels) + TriggerTokens(marker))
  {
    LineTextFields(t, v, a, channels, marker);
    LineTokensPlain(channels, marker);
    LineRecordOf(LineText(t, v, a, channels, marker), t, v, a, ChannelTokens(channels) + TriggerTokens(marker));
  }

  /**
   * Every well-formed line parses to the record of its fields: time stamp,
   * valence and arousal from the first three fields and each channel under
   * its name, the last value for a repeated name.
   */
  lemma ParseLineText(t: int, v: int, a: int, channels: seq<(string, int)>, marker: Option<string>)
    requires forall i :: 0 <= i < |channels| ==> PlainName(channels[i].0)
    requires marker.Some? ==> PlainMarker(marker.value)
    ensures ParseRecord(LineText(t, v, a, channels, marker))
         == Success(Stored(BaseRecord(Finite(t as real), Finite(v as real), Finite(a as real)), channels))
  {
    LineTextRecord(t, v, a, channels, marker);
    ChannelTokensStore(BaseRecord(Finite(t as real), Finite(v as real), Finite(a as real)), channels, marker);
  }
}
