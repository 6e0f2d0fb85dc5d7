/** Analysis of one received message (`Session.analize`): the decoded record
    of the sync batch becomes a `ReceivedMessage` whose group flag, effective
    speaker, display content and mention target are derived from the record's
    ids and content. */
module Message {
  import opened GoStrings

  /** Type tag of a plain-text message: the protocol's message type 1. */
  const MSG_TEXT: int := 1

  /** Substring that marks a group-chat user name. */
  const GroupMarker: string := "@@"

  /** Separator between the speaker's id and the text in a group message. */
  const SpeakerDelimiter: string := ":<br/>"

  /** U+2005 FOUR-PER-EM SPACE, which ends a leading "@name" mention. */
  const MentionSeparator: char := '\U{2005}'

  /** A decoded JSON value, as far as the message fields need it. */
  datatype JsonValue = JString(str: string) | JNumber(num: int) | JOther

  /** One element of the batch's `AddMsgList`: a decoded JSON object. */
  type RawMessage = map<string, JsonValue>

  /** The five fields `analize` reads are present with the types its type
      assertions expect (a string for the ids and the content, a number for
      the type tag); on any other element those assertions panic. */
  predicate WellFormed(raw: RawMessage) {
    && "MsgId" in raw && raw["MsgId"].JString?
    && "Content" in raw && raw["Content"].JString?
    && "FromUserName" in raw && raw["FromUserName"].JString?
    && "ToUserName" in raw && raw["ToUserName"].JString?
    && "MsgType" in raw && raw["MsgType"].JNumber?
  }

  datatype ReceivedMessage = ReceivedMessage(
    MsgId: string,
    OriginContent: string,
    FromUserName: string,
    ToUserName: string,
    MsgType: int,
    IsGroup: bool,
    Who: string,
    Content: string,
    At: string)

  /** Speaker and content of a group message: the text before the first
      delimiter and the text between the first and the second delimiter, or
      the bot itself and the whole content when there is no delimiter. */
  function GroupSpeaker(origin: string, botUserName: string): (string, string) {
    var ss := Split(origin, SpeakerDelimiter);
    if |ss| > 1 then (ss[0], ss[1]) else (botUserName, origin)
  }

  /** Mention target and remaining content: a text message of more than one
      character that starts with "@" and holds exactly one separator gives up
      everything up to and including that separator. */
  function ExtractMention(msgType: int, content: string): (string, string) {
    if msgType == MSG_TEXT && |content| > 1 && HasPrefix(content, "@") then
      var ss := Split(content, [MentionSeparator]);
      if |ss| == 2 then (ss[0] + [MentionSeparator], ss[1]) else ("", content)
    else
      ("", content)
  }

  /** `Session.analize`: the record's fields are copied verbatim and the
      derived fields computed from them. */
  function Analyze(raw: RawMessage, botUserName: string): (m: ReceivedMessage)
    requires WellFormed(raw)
    ensures m.MsgId == raw["MsgId"].str
    ensures m.OriginContent == raw["Content"].str
    ensures m.FromUserName == raw["FromUserName"].str
    ensures m.ToUserName == raw["ToUserName"].str
    ensures m.MsgType == raw["MsgType"].num
  {
    var origin := raw["Content"].str;
    var from := raw["FromUserName"].str;
    var to := raw["ToUserName"].str;
    var msgType := raw["MsgType"].num;
    var isGroup := Contains(from, GroupMarker) || Contains(to, GroupMarker);
    var speaker := if isGroup then GroupSpeaker(origin, botUserName) else (from, origin);
    var mention := ExtractMention(msgType, speaker.1);
    ReceivedMessage(raw["MsgId"].str, origin, from, to, msgType,
                    isGroup, speaker.0, mention.1, mention.0)
  }

  /** Two adjacent "@" characters somewhere in `s`. */
  predicate HasDoubleAt(s: string) {
    exists i :: 0 <= i < |s| - 1 && s[i] == '@' && s[i + 1] == '@'
  }

  lemma {:induction false} ContainsGroupMarker(s: string)
    ensures Contains(s, GroupMarker) <==> HasDoubleAt(s)
  {
    ContainsIff(s, GroupMarker);
    if HasDoubleAt(s) {
      var i :| 0 <= i < |s| - 1 && s[i] == '@' && s[i + 1] == '@';
      assert s[i..i + 2] == GroupMarker;
      assert OccursAt(s, GroupMarker, i);
    }
    if Contains(s, GroupMarker) {
      var i: nat :| OccursAt(s, GroupMarker, i);
      assert s[i..i + 2][0] == s[i] && s[i..i + 2][1] == s[i + 1];
    }
  }

  /** A message is a group message exactly when its sender or its receiver
      id holds "@@". */
  lemma {:induction false} AnalyzeGroupFlag(raw: RawMessage, botUserName: string)
    requires WellFormed(raw)
    ensures var m := Analyze(raw, botUserName);
      m.IsGroup <==> HasDoubleAt(m.FromUserName) || HasDoubleAt(m.ToUserName)
  {
    ContainsGroupMarker(raw["FromUserName"].str);
    ContainsGroupMarker(raw["ToUserName"].str);
  }

  /** What `ExtractMention` does: it only ever cuts the content in two, and it
      cuts exactly when the message is a text message of more than one
      character that starts with "@" and holds the separator exactly once;
      the mention then runs from the "@" up to and including the separator. */
  lemma {:induction false} ExtractMentionSpec(msgType: int, content: string)
    ensures var (at, rest) := ExtractMention(msgType, content);
      && at + rest == content
      && (at != "" <==> msgType == MSG_TEXT && |content| > 1 && content[0] == '@'
                        && multiset(content)[MentionSeparator] == 1)
      && (at != "" ==> at[0] == '@' && at[|at| - 1] == MentionSeparator
                       && MentionSeparator !in at[..|at| - 1] && MentionSeparator !in rest)
  {
    var sep := [MentionSeparator];
    if msgType == MSG_TEXT && |content| > 1 {
      assert HasPrefix(content, "@") <==> content[0] == '@' by {
        assert content[..1] == [content[0]];
      }
    }
    if msgType == MSG_TEXT && |content| > 1 && HasPrefix(content, "@") {
      var ss := Split(content, sep);
      SplitCountChar(content, MentionSeparator);
      if |ss| == 2 {
        SplitJoin(content, sep);
        SplitPiecesFree(content, sep);
        assert Join(ss, sep) == ss[0] + sep + ss[1];
        NotContainsChar(ss[0], MentionSeparator);
        NotContainsChar(ss[1], MentionSeparator);
        var at := ss[0] + sep;
        assert at[..|at| - 1] == ss[0];
      }
    }
  }

  /** A string in which `Contains` finds no `[c]` does not hold `c`. */
  lemma {:induction false} NotContainsChar(s: string, c: char)
    requires !Contains(s, [c])
    ensures c !in s
  {
    ContainsIff(s, [c]);
    if c in s {
      var i :| 0 <= i < |s| && s[i] == c;
      assert s[i..i + 1] == [c];
      assert OccursAt(s, [c], i);
    }
  }

  /** Outside a group the speaker is the sender and the content is the
      original content (apart from a mention split off its front). */
  lemma {:induction false} AnalyzeDirect(raw: RawMessage, botUserName: string)
    requires WellFormed(raw)
    ensures var m := Analyze(raw, botUserName);
      !m.IsGroup ==> m.Who == m.FromUserName && m.At + m.Content == m.OriginContent
  {
    var m := Analyze(raw, botUserName);
    ExtractMentionSpec(m.MsgType, m.OriginContent);
  }

  /** A group message without the speaker delimiter is attributed to the bot
      itself and keeps its original content. */
  lemma {:induction false} AnalyzeGroupNoDelimiter(raw: RawMessage, botUserName: string)
    requires WellFormed(raw)
    ensures var m := Analyze(raw, botUserName);
      m.IsGroup && !Contains(m.OriginContent, SpeakerDelimiter) ==>
        m.Who == botUserName && m.At + m.Content == m.OriginContent
  {
    var m := Analyze(raw, botUserName);
    SplitFirst(m.OriginContent, SpeakerDelimiter);
    ExtractMentionSpec(m.MsgType, m.OriginContent);
  }

  /** A group message with the speaker delimiter: the speaker, the delimiter
      and the content (with any mention put back in front) form a prefix of
      the original content; the speaker ends at the first delimiter, and the
      content runs from there to the second delimiter or to the end. */
  lemma {:induction false} AnalyzeGroupSpeaker(raw: RawMessage, botUserName: string)
    requires WellFormed(raw)
    ensures var m := Analyze(raw, botUserName);
      var body := m.At + m.Content;
      var n := |m.Who| + |SpeakerDelimiter| + |body|;
      m.IsGroup && Contains(m.OriginContent, SpeakerDelimiter) ==>
        && n <= |m.OriginContent|
        && m.OriginContent[..n] == m.Who + SpeakerDelimiter + body
        && (forall j: nat :: j < |m.Who| ==> !OccursAt(m.OriginContent, SpeakerDelimiter, j))
        && (forall j: nat :: |m.Who| + |SpeakerDelimiter| <= j < n ==> !OccursAt(m.OriginContent, SpeakerDelimiter, j))
        && PieceEnds(m.OriginContent, SpeakerDelimiter, n)
  {
    var m := Analyze(raw, botUserName);
    var origin := m.OriginContent;
    if m.IsGroup && Contains(origin, SpeakerDelimiter) {
      var ss := Split(origin, SpeakerDelimiter);
      SplitFirst(origin, SpeakerDelimiter);
      SplitHead(origin, SpeakerDelimiter);
      assert m.Who == ss[0];
      ExtractMentionSpec(m.MsgType, ss[1]);
      assert m.At + m.Content == ss[1];
    }
  }

  /** Mention extraction takes place exactly when the message is a text
      message whose content (before extraction) is longer than one character,
      starts with "@" and holds exactly one U+2005; the mention then ends with
      that separator and the content keeps no separator. */
  lemma {:induction false} AnalyzeMention(raw: RawMessage, botUserName: string)
    requires WellFormed(raw)
    ensures var m := Analyze(raw, botUserName);
      var body := m.At + m.Content;
      && (m.At != "" <==> m.MsgType == MSG_TEXT && |body| > 1 && body[0] == '@'
                          && multiset(body)[MentionSeparator] == 1)
      && (m.At != "" ==> m.At[0] == '@' && m.At[|m.At| - 1] == MentionSeparator
                         && MentionSeparator !in m.At[..|m.At| - 1]
                         && MentionSeparator !in m.Content)
  {
    var m := Analyze(raw, botUserName);
    var speaker := if m.IsGroup then GroupSpeaker(m.OriginContent, botUserName)
                   else (m.FromUserName, m.OriginContent);
    ExtractMentionSpec(m.MsgType, speaker.1);
  }
}
