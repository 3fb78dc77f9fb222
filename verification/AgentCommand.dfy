/**
 * The agent's command line (src/agent/agent-cli-command.ts) against the word rules of POSIX.1-2017,
 * Shell Command Language, sections 2.2.1 to 2.2.3 (quoting) and 2.3 (token recognition).
 */
module PosixWords {
  import opened Wrappers

  datatype Mode = Bare | Single | Double

  predicate Blank(c: char) {
    c == ' ' || c == '\t'
  }

  /** Unquoted, these start an operator, an expansion or a pattern, so the text is more than words. */
  predicate Active(c: char, startsWord: bool) {
    c in "|&;<>()$`*?[\n" || (startsWord && (c == '#' || c == '~'))
  }

  /** A backslash keeps its escaping power inside double quotes only before these. */
  predicate EscapedInDouble(c: char) {
    c in "$`\"\\\n"
  }

  function Text(word: Option<string>): string {
    if word == None then "" else word.value
  }

  function First(word: string, rest: Option<seq<string>>): Option<seq<string>> {
    if rest == None then None else Some([word] + rest.value)
  }

  /** The words of `s` after quote removal, `word` being the one under way; `None` when `s` is more than words. */
  function Words(s: string, mode: Mode, word: Option<string>): Option<seq<string>>
    decreases |s|
  {
    if s == "" then
      if mode != Bare then None else Some(if word == None then [] else [word.value])
    else
      var (c, rest) := (s[0], s[1..]);
      match mode
      case Single =>
        if c == '\'' then Words(rest, Bare, Some(Text(word))) else Words(rest, Single, Some(Text(word) + [c]))
      case Double =>
        if c == '"' then Words(rest, Bare, Some(Text(word)))
        else if c == '$' || c == '`' then None
        else if c == '\\' && rest != "" && EscapedInDouble(rest[0]) then
          Words(rest[1..], Double, Some(Text(word) + if rest[0] == '\n' then "" else [rest[0]]))
        else Words(rest, Double, Some(Text(word) + [c]))
      case Bare =>
        if Blank(c) then (if word == None then Words(rest, Bare, None) else First(word.value, Words(rest, Bare, None)))
        else if c == '\'' then Words(rest, Single, Some(Text(word)))
        else if c == '"' then Words(rest, Double, Some(Text(word)))
        else if c == '\\' then
          if rest == "" then None
          else if rest[0] == '\n' then Words(rest[1..], Bare, word)
          else Words(rest[1..], Bare, Some(Text(word) + [rest[0]]))
        else if Active(c, word == None) then None
        else Words(rest, Bare, Some(Text(word) + [c]))
  }

  function WordsOf(s: string): Option<seq<string>> {
    Words(s, Bare, None)
  }
}

module AgentCommand {
  import opened Wrappers
  import opened PosixWords

  datatype Reason =
    | ControlCharacter
    | UnclosedQuote
    | SpecialInDoubleQuotes(c: char)
    | SpecialOutsideQuotes(c: char)
    | EmptyCommand
    | OtherFirstWord

  datatype AgentCliCommand = Argv(argv: seq<string>) | Refused(reason: Reason)

  const LAUNCHER := "pi-template"

  predicate Plain(c: char) {
    'A' <= c <= 'Z' || 'a' <= c <= 'z' || '0' <= c <= '9' || c in "_-.,:@%+=/"
  }

  predicate Control(c: char) {
    (c < ' ' && c != '\t') || c == 0x7f as char
  }

  predicate SpecialInDouble(c: char) {
    c in "$`\\"
  }

  predicate HasControl(command: string) {
    exists i | 0 <= i < |command| :: Control(command[i])
  }

  /** Only plain characters and blanks outside quotes, nothing that expands or escapes inside double quotes, every quote closed. */
  predicate PlainlyQuoted(s: string, mode: Mode) {
    if s == "" then mode == Bare
    else match mode
      case Single => PlainlyQuoted(s[1..], if s[0] == '\'' then Bare else Single)
      case Double =>
        if s[0] == '"' then PlainlyQuoted(s[1..], Bare) else !SpecialInDouble(s[0]) && PlainlyQuoted(s[1..], Double)
      case Bare =>
        if s[0] == '\'' then PlainlyQuoted(s[1..], Single)
        else if s[0] == '"' then PlainlyQuoted(s[1..], Double)
        else (Blank(s[0]) || Plain(s[0])) && PlainlyQuoted(s[1..], Bare)
  }

  /** The commands the agent may run: what the code accepts, said without its scan. */
  predicate Acceptable(command: string) {
    && !HasControl(command)
    && PlainlyQuoted(command, Bare)
    && WordsOf(command).Some?
    && WordsOf(command).value != []
    && WordsOf(command).value[0] == LAUNCHER
  }

  method IndexOf(s: string, c: char, from: nat) returns (at: Option<nat>)
    requires from <= |s|
    ensures match at
            case None => c !in s[from..]
            case Some(i) => from <= i < |s| && s[i] == c && c !in s[from..i]
  {
    var i := from;
    while i < |s|
      invariant from <= i <= |s|
      invariant c !in s[from..i]
    {
      if s[i] == c {
        return Some(i);
      }
      assert s[from..i + 1] == s[from..i] + [s[i]];
      i := i + 1;
    }
    return None;
  }

  function Append(words: seq<string>, rest: Option<seq<string>>): Option<seq<string>> {
    if rest == None then None else Some(words + rest.value)
  }

  lemma AppendNone(rest: Option<seq<string>>)
    ensures Append([], rest) == rest
  {
    if rest.Some? {
      assert [] + rest.value == rest.value;
    }
  }

  lemma AppendFirst(words: seq<string>, word: string, rest: Option<seq<string>>)
    ensures Append(words, First(word, rest)) == Append(words + [word], rest)
  {
    if rest.Some? {
      assert words + ([word] + rest.value) == words + [word] + rest.value;
    }
  }

  /** The scan has read `command` up to `index`: `words` are complete and `word` is under way. */
  ghost predicate Scanned(command: string, index: nat, words: seq<string>, word: Option<string>) {
    && index <= |command|
    && WordsOf(command) == Append(words, Words(command[index..], Bare, word))
    && PlainlyQuoted(command, Bare) == PlainlyQuoted(command[index..], Bare)
  }

  lemma ScanBlank(command: string, index: nat, words: seq<string>, word: Option<string>)
    requires Scanned(command, index, words, word) && index < |command| && Blank(command[index])
    ensures Scanned(command, index + 1, if word.Some? then words + [word.value] else words, None)
  {
    assert command[index..][1..] == command[index + 1..];
    if word.Some? {
      AppendFirst(words, word.value, Words(command[index + 1..], Bare, None));
    }
  }

  lemma ScanPlain(command: string, index: nat, words: seq<string>, word: Option<string>)
    requires Scanned(command, index, words, word) && index < |command| && Plain(command[index])
    ensures Scanned(command, index + 1, words, Some(Text(word) + [command[index]]))
  {
    assert command[index..][1..] == command[index + 1..];
  }

  lemma ScanOther(command: string, index: nat, words: seq<string>, word: Option<string>)
    requires Scanned(command, index, words, word) && index < |command|
    requires !Blank(command[index]) && !Plain(command[index]) && command[index] != '\'' && command[index] != '"'
    ensures !Acceptable(command)
  {
    assert command[index..][0] == command[index];
  }

  lemma ScanQuote(command: string, index: nat, words: seq<string>, word: Option<string>, end: nat)
    requires Scanned(command, index, words, word) && index < end < |command|
    requires command[index] == command[end] == '\'' || command[index] == command[end] == '"'
    requires command[index] !in command[index + 1..end]
    requires command[index] == '"' ==> forall c | c in command[index + 1..end] :: !SpecialInDouble(c)
    ensures Scanned(command, end + 1, words, Some(Text(word) + command[index + 1..end]))
  {
    var quoted, rest := command[index + 1..end], command[end + 1..];
    assert command[index..][1..] == quoted + [command[end]] + rest;
    if command[index] == '\'' {
      SingleQuoted(quoted, rest, Text(word));
    } else {
      DoubleQuoted(quoted, rest, Text(word));
    }
  }

  lemma ScanUnclosed(command: string, index: nat, words: seq<string>, word: Option<string>)
    requires Scanned(command, index, words, word) && index < |command|
    requires command[index] == '\'' || command[index] == '"'
    requires command[index] !in command[index + 1..]
    ensures !Acceptable(command)
  {
    assert command[index..][1..] == command[index + 1..];
    NeverClosed(command[index + 1..], if command[index] == '\'' then Single else Double);
  }

  lemma ScanSpecial(command: string, index: nat, words: seq<string>, word: Option<string>, end: nat)
    requires Scanned(command, index, words, word) && index < end < |command|
    requires command[index] == command[end] == '"' && '"' !in command[index + 1..end]
    requires exists c | c in command[index + 1..end] :: SpecialInDouble(c)
    ensures !Acceptable(command)
  {
    var quoted, rest := command[index + 1..end], command[end + 1..];
    assert command[index..][1..] == quoted + ['"'] + rest;
    SpecialQuoted(quoted, rest);
  }

  lemma ScanEnds(command: string, words: seq<string>, word: Option<string>)
    requires Scanned(command, |command|, words, word)
    ensures PlainlyQuoted(command, Bare) && WordsOf(command) == Some(if word.Some? then words + [word.value] else words)
  {
    hide Words, PlainlyQuoted;
    EndOfText(command[|command|..], word);
    assert word == None ==> words + [] == words;
  }

  lemma EndOfText(s: string, word: Option<string>)
    requires s == ""
    ensures PlainlyQuoted(s, Bare) && Words(s, Bare, word) == Some(if word == None then [] else [word.value])
  {
  }

  /** A quote mark that begins or ends a quotation. */
  predicate Mark(mode: Mode, c: char) {
    match mode case Single => c == '\'' case Double => c == '"' case Bare => c == '\'' || c == '"'
  }

  function ModeAfter(mode: Mode, c: char): Mode {
    if !Mark(mode, c) then mode else if mode != Bare then Bare else if c == '\'' then Single else Double
  }

  // Which refusal is given: that of the first place outside quotations where the scan cannot go on.

  /** Whether the text before `n` ends inside a quotation. */
  function ModeUpTo(s: string, n: nat): Mode
    requires n <= |s|
  {
    if n == 0 then Bare else ModeAfter(ModeUpTo(s, n - 1), s[n - 1])
  }

  /** The scan cannot go on from `i`, outside quotations, for this reason. */
  ghost predicate TroubleAt(s: string, i: nat, r: Reason)
    requires i < |s|
  {
    match r
    case UnclosedQuote => Mark(Bare, s[i]) && s[i] !in s[i + 1..]
    case SpecialInDoubleQuotes(c) =>
      && s[i] == '"' && '"' in s[i + 1..] && SpecialInDouble(c)
      && exists k :: i < k < |s| && s[k] == c && forall m | i < m < k :: s[m] != '"' && !SpecialInDouble(s[m])
    case SpecialOutsideQuotes(c) => s[i] == c && !Mark(Bare, c) && !Blank(c) && !Plain(c)
    case _ => false
  }

  ghost predicate Untroubled(s: string, i: nat)
    requires i < |s|
  {
    forall r :: !TroubleAt(s, i, r)
  }

  /** The scan comes to `n`, outside quotations. */
  ghost predicate ClearUpTo(s: string, n: nat) {
    n <= |s| && ModeUpTo(s, n) == Bare && forall i | 0 <= i < n && ModeUpTo(s, i) == Bare :: Untroubled(s, i)
  }

  ghost predicate FirstTrouble(s: string, r: Reason) {
    exists i :: 0 <= i < |s| && ClearUpTo(s, i) && TroubleAt(s, i, r)
  }

  /** Why a command is refused. */
  ghost predicate Because(command: string, r: Reason) {
    match r
    case ControlCharacter => HasControl(command)
    case EmptyCommand => !HasControl(command) && PlainlyQuoted(command, Bare) && WordsOf(command) == Some([])
    case OtherFirstWord =>
      && !HasControl(command) && PlainlyQuoted(command, Bare)
      && WordsOf(command).Some? && WordsOf(command).value != [] && WordsOf(command).value[0] != LAUNCHER
    case _ => !HasControl(command) && FirstTrouble(command, r)
  }

  lemma {:induction false} ClearOneMore(s: string, n: nat)
    requires ClearUpTo(s, n) && n < |s| && !Mark(Bare, s[n]) && (Blank(s[n]) || Plain(s[n]))
    ensures ClearUpTo(s, n + 1)
  {
    forall r
      ensures !TroubleAt(s, n, r)
    {
    }
  }

  lemma {:induction false} InsideQuotes(s: string, n: nat, k: nat)
    requires n < k <= |s| && ModeUpTo(s, n) == Bare && Mark(Bare, s[n])
    requires forall m | n < m < k :: s[m] != s[n]
    ensures ModeUpTo(s, k) == if s[n] == '\'' then Single else Double
    decreases k
  {
    if k > n + 1 {
      InsideQuotes(s, n, k - 1);
    }
  }

  lemma {:induction false} ClearPastQuote(s: string, n: nat, end: nat)
    requires ClearUpTo(s, n) && n < end < |s| && Mark(Bare, s[n]) && s[end] == s[n] && s[n] !in s[n + 1..end]
    requires s[n] == '"' ==> forall c | c in s[n + 1..end] :: !SpecialInDouble(c)
    ensures ClearUpTo(s, end + 1)
  {
    hide SpecialInDouble;
    forall m | n < m < end
      ensures s[m] != s[n] && (s[n] == '"' ==> !SpecialInDouble(s[m]))
    {
      assert s[m] == s[n + 1..end][m - n - 1];
    }
    QuoteIsUntroubled(s, n, end);
    forall k | n < k <= end
      ensures ModeUpTo(s, k) != Bare
    {
      InsideQuotes(s, n, k);
    }
    InsideQuotes(s, n, end);
  }

  lemma {:induction false} QuoteIsUntroubled(s: string, n: nat, end: nat)
    requires n < end < |s| && Mark(Bare, s[n]) && s[end] == s[n]
    requires s[n] == '"' ==> forall m | n < m < end :: !SpecialInDouble(s[m])
    ensures Untroubled(s, n)
  {
    assert s[n + 1..][end - n - 1] == s[n];
    forall r
      ensures !TroubleAt(s, n, r)
    {
    }
  }

  lemma {:induction false} FirstOfQuoted(s: string, n: nat, end: nat, quoted: string, c: char)
    requires ClearUpTo(s, n) && n < end < |s| && s[n] == s[end] == '"' && quoted == s[n + 1..end] && '"' !in quoted
    requires SpecialInDouble(c)
    requires exists k :: 0 <= k < |quoted| && quoted[k] == c && forall m | 0 <= m < k :: !SpecialInDouble(quoted[m])
    ensures FirstTrouble(s, SpecialInDoubleQuotes(c))
  {
    var k :| 0 <= k < |quoted| && quoted[k] == c && forall m | 0 <= m < k :: !SpecialInDouble(quoted[m]);
    assert s[n + 1..][end - n - 1] == '"';
    forall m | n < m < n + 1 + k
      ensures s[m] != '"' && !SpecialInDouble(s[m])
    {
      assert s[m] == quoted[m - n - 1];
    }
    assert s[n + 1 + k] == c;
    assert TroubleAt(s, n, SpecialInDoubleQuotes(c));
  }

  /** A text with a place of trouble is not plainly quoted, and two places cannot both be the first. */
  lemma {:induction false} OneReason(command: string, r: Reason, q: Reason)
    requires Because(command, r) && Because(command, q)
    ensures r == q && !Acceptable(command)
  {
    hide TroubleAt, WordsOf, HasControl, ClearUpTo, PlainlyQuoted;
    if FirstTrouble(command, r) {
      TroubleIsNotPlain(command, r);
    }
    if FirstTrouble(command, q) {
      TroubleIsNotPlain(command, q);
    }
    if FirstTrouble(command, r) && FirstTrouble(command, q) {
      var i :| 0 <= i < |command| && ClearUpTo(command, i) && TroubleAt(command, i, r);
      var j :| 0 <= j < |command| && ClearUpTo(command, j) && TroubleAt(command, j, q);
      SameTrouble(command, i, r, j, q);
    }
  }

  lemma {:induction false} SameTrouble(s: string, i: nat, r: Reason, j: nat, q: Reason)
    requires i < |s| && ClearUpTo(s, i) && TroubleAt(s, i, r)
    requires j < |s| && ClearUpTo(s, j) && TroubleAt(s, j, q)
    ensures r == q
  {
    NotBefore(s, i, r, j);
    NotBefore(s, j, q, i);
  }

  lemma {:induction false} NotBefore(s: string, i: nat, r: Reason, j: nat)
    requires i < |s| && ModeUpTo(s, i) == Bare && TroubleAt(s, i, r) && ClearUpTo(s, j)
    ensures j <= i
  {
    hide TroubleAt, ModeUpTo;
  }

  lemma {:induction false} TroubleIsNotPlain(s: string, r: Reason)
    requires FirstTrouble(s, r)
    ensures !PlainlyQuoted(s, Bare)
  {
    var i :| 0 <= i < |s| && ClearUpTo(s, i) && TroubleAt(s, i, r);
    if PlainlyQuoted(s, Bare) {
      PlainAhead(s, i);
      TroubleHere(s, i, r);
    }
  }

  lemma {:induction false} PlainAhead(s: string, n: nat)
    requires n <= |s| && PlainlyQuoted(s, Bare)
    ensures PlainlyQuoted(s[n..], ModeUpTo(s, n))
    decreases n
  {
    if n == 0 {
      assert s[0..] == s;
    } else {
      PlainAhead(s, n - 1);
      assert s[n - 1..][1..] == s[n..];
    }
  }

  lemma {:induction false} TroubleHere(s: string, i: nat, r: Reason)
    requires i < |s| && TroubleAt(s, i, r)
    ensures !PlainlyQuoted(s[i..], Bare)
  {
    var rest := s[i + 1..];
    assert s[i..][1..] == rest && s[i..][0] == s[i];
    match r {
      case UnclosedQuote => NeverClosed(rest, if s[i] == '\'' then Single else Double);
      case SpecialInDoubleQuotes(c) =>
        var k :| i < k < |s| && s[k] == c && forall m | i < m < k :: s[m] != '"' && !SpecialInDouble(s[m]);
        SpecialAhead(rest, k - i - 1);
      case _ =>
    }
  }

  lemma {:induction false} SpecialAhead(s: string, k: nat)
    requires k < |s| && SpecialInDouble(s[k]) && forall m | 0 <= m < k :: s[m] != '"'
    ensures !PlainlyQuoted(s, Double)
    decreases k
  {
    if k > 0 {
      SpecialAhead(s[1..], k - 1);
    }
  }

  /** Accepts exactly the acceptable commands, splits them into the words POSIX gives, and says why it refuses one. */
  method AgentCliArgv(command: string) returns (result: AgentCliCommand)
    ensures result.Argv? <==> Acceptable(command)
    ensures result.Argv? ==> WordsOf(command) == Some([LAUNCHER] + result.argv)
    ensures result.Refused? ==> Because(command, result.reason)
  {
    if HasControl(command) {
      return Refused(ControlCharacter);
    }
    var words: seq<string> := [];
    var word: Option<string> := None;
    var index := 0;
    assert ClearUpTo(command, 0);
    assert Scanned(command, 0, [], None) by {
      assert command[0..] == command;
      AppendNone(WordsOf(command));
    }
    hide Scanned, Acceptable, ClearUpTo, SpecialInDouble, Untroubled;
    while index < |command|
      invariant index <= |command| && Scanned(command, index, words, word) && ClearUpTo(command, index)
    {
      var c := command[index];
      if Blank(c) {
        ScanBlank(command, index, words, word);
        ClearOneMore(command, index);
        if word.Some? {
          words := words + [word.value];
        }
        word := None;
      } else if c == '\'' {
        var end := IndexOf(command, '\'', index + 1);
        if end == None {
          ScanUnclosed(command, index, words, word);
          assert TroubleAt(command, index, UnclosedQuote);
          return Refused(UnclosedQuote);
        }
        ScanQuote(command, index, words, word, end.value);
        ClearPastQuote(command, index, end.value);
        word := Some(Text(word) + command[index + 1..end.value]);
        index := end.value;
      } else if c == '"' {
        var end := IndexOf(command, '"', index + 1);
        if end == None {
          ScanUnclosed(command, index, words, word);
          assert TroubleAt(command, index, UnclosedQuote);
          return Refused(UnclosedQuote);
        }
        var quoted := command[index + 1..end.value];
        var special := FirstSpecial(quoted);
        if special.Some? {
          ScanSpecial(command, index, words, word, end.value);
          FirstOfQuoted(command, index, end.value, quoted, special.value);
          return Refused(SpecialInDoubleQuotes(special.value));
        }
        ScanQuote(command, index, words, word, end.value);
        ClearPastQuote(command, index, end.value);
        word := Some(Text(word) + quoted);
        index := end.value;
      } else if Plain(c) {
        ScanPlain(command, index, words, word);
        ClearOneMore(command, index);
        word := Some(Text(word) + [c]);
      } else {
        ScanOther(command, index, words, word);
        assert TroubleAt(command, index, SpecialOutsideQuotes(c));
        return Refused(SpecialOutsideQuotes(c));
      }
      index := index + 1;
    }
    ScanEnds(command, words, word);
    if word.Some? {
      words := words + [word.value];
    }
    result := Finish(command, words);
  }

  /** The words are there; the first must be the launcher. */
  method Finish(command: string, words: seq<string>) returns (result: AgentCliCommand)
    requires !HasControl(command) && PlainlyQuoted(command, Bare) && WordsOf(command) == Some(words)
    ensures result.Argv? <==> Acceptable(command)
    ensures result.Argv? ==> words == [LAUNCHER] + result.argv
    ensures result.Refused? ==> Because(command, result.reason)
  {
    if words == [] {
      return Refused(EmptyCommand);
    }
    if words[0] != LAUNCHER {
      return Refused(OtherFirstWord);
    }
    return Argv(words[1..]);
  }

  method FirstSpecial(quoted: string) returns (special: Option<char>)
    ensures special == None <==> forall c | c in quoted :: !SpecialInDouble(c)
    ensures special.Some? ==>
              && special.value in quoted && SpecialInDouble(special.value)
              && exists k :: 0 <= k < |quoted| && quoted[k] == special.value && forall m | 0 <= m < k :: !SpecialInDouble(quoted[m])
  {
    for i := 0 to |quoted|
      invariant forall k | 0 <= k < i :: !SpecialInDouble(quoted[k])
    {
      if SpecialInDouble(quoted[i]) {
        return Some(quoted[i]);
      }
    }
    return None;
  }

  lemma {:induction false} NeverClosed(s: string, mode: Mode)
    requires mode != Bare && (if mode == Single then '\'' else '"') !in s
    ensures !PlainlyQuoted(s, mode)
  {
    if s != "" {
      NeverClosed(s[1..], mode);
    }
  }

  lemma {:induction false} SingleQuoted(quoted: string, rest: string, word: string)
    requires '\'' !in quoted
    ensures Words(quoted + ['\''] + rest, Single, Some(word)) == Words(rest, Bare, Some(word + quoted))
    ensures PlainlyQuoted(quoted + ['\''] + rest, Single) == PlainlyQuoted(rest, Bare)
  {
    var s := quoted + ['\''] + rest;
    if quoted == "" {
      assert s[1..] == rest && word + quoted == word;
    } else {
      assert s[1..] == quoted[1..] + ['\''] + rest;
      SingleQuoted(quoted[1..], rest, word + [quoted[0]]);
      assert word + [quoted[0]] + quoted[1..] == word + quoted;
    }
  }

  lemma {:induction false} DoubleQuoted(quoted: string, rest: string, word: string)
    requires '"' !in quoted && forall c | c in quoted :: !SpecialInDouble(c)
    ensures Words(quoted + ['"'] + rest, Double, Some(word)) == Words(rest, Bare, Some(word + quoted))
    ensures PlainlyQuoted(quoted + ['"'] + rest, Double) == PlainlyQuoted(rest, Bare)
  {
    var s := quoted + ['"'] + rest;
    if quoted == "" {
      assert s[1..] == rest && word + quoted == word;
    } else {
      assert s[1..] == quoted[1..] + ['"'] + rest;
      assert quoted[0] in quoted && !SpecialInDouble(quoted[0]);
      assert forall c | c in quoted[1..] :: c in quoted;
      DoubleQuoted(quoted[1..], rest, word + [quoted[0]]);
      assert word + [quoted[0]] + quoted[1..] == word + quoted;
    }
  }

  lemma {:induction false} SpecialQuoted(quoted: string, rest: string)
    requires '"' !in quoted && exists c | c in quoted :: SpecialInDouble(c)
    ensures !PlainlyQuoted(quoted + ['"'] + rest, Double)
  {
    var s := quoted + ['"'] + rest;
    if !SpecialInDouble(quoted[0]) {
      assert s[1..] == quoted[1..] + ['"'] + rest;
      var c :| c in quoted && SpecialInDouble(c);
      assert c in quoted[1..];
      SpecialQuoted(quoted[1..], rest);
    }
  }

  // ---------------------------------------------------------------- quoting for a shell

  function Escaped(value: string): string {
    if value == "" then "" else (if value[0] == '\'' then "'\\''" else [value[0]]) + Escaped(value[1..])
  }

  function Quoted(value: string): string {
    "'" + Escaped(value) + "'"
  }

  function ShellWords(argv: seq<string>): string {
    if argv == [] then ""
    else if |argv| == 1 then Quoted(argv[0])
    else Quoted(argv[0]) + " " + ShellWords(argv[1..])
  }

  lemma {:induction false} EscapedReadsBack(value: string, rest: string, word: string)
    ensures Words(Escaped(value) + "'" + rest, Single, Some(word)) == Words(rest, Bare, Some(word + value))
  {
    hide Words;
    var s := Escaped(value) + "'" + rest;
    if value == "" {
      assert s == "'" + rest && word + value == word;
      ClosingQuote(rest, word);
    } else {
      var tail := Escaped(value[1..]) + "'" + rest;
      EscapedReadsBack(value[1..], rest, word + [value[0]]);
      assert word + [value[0]] + value[1..] == word + value;
      if value[0] == '\'' {
        assert s == "'\\''" + tail;
        EscapedQuote(tail, word);
      } else {
        assert s == [value[0]] + tail;
        InQuotes(value[0], tail, word);
      }
    }
  }

  lemma {:induction false} ClosingQuote(rest: string, word: string)
    ensures Words("'" + rest, Single, Some(word)) == Words(rest, Bare, Some(word))
  {
    var s := "'" + rest;
    assert s[0] == '\'' && s[1..] == rest;
  }

  lemma {:induction false} InQuotes(c: char, tail: string, word: string)
    requires c != '\''
    ensures Words([c] + tail, Single, Some(word)) == Words(tail, Single, Some(word + [c]))
  {
    var s := [c] + tail;
    assert s[0] == c && s[1..] == tail;
  }

  /** Close, an escaped quote, open again. */
  lemma EscapedQuote(tail: string, word: string)
    ensures Words("'\\''" + tail, Single, Some(word)) == Words(tail, Single, Some(word + ['\'']))
  {
    var s := "'\\''" + tail;
    var (s1, s2) := ("\\''" + tail, "'" + tail);
    assert s[0] == '\'' && s[1..] == s1;
    assert s1[0] == '\\' && s1[1..][0] == '\'' && s1[1..][1..] == s2;
    assert s2[0] == '\'' && s2[1..] == tail;
    assert Words(s1, Bare, Some(word)) == Words(s2, Bare, Some(word + ['\'']));
  }

  lemma QuotedReadsBack(value: string, rest: string)
    ensures Words(Quoted(value) + rest, Bare, None) == Words(rest, Bare, Some(value))
  {
    var s := Quoted(value) + rest;
    assert s[1..] == Escaped(value) + "'" + rest;
    EscapedReadsBack(value, rest, "");
    assert "" + value == value;
  }

  lemma {:induction false} WordEnds(word: string, rest: string)
    ensures Words("", Bare, Some(word)) == Some([word])
    ensures Words(" " + rest, Bare, Some(word)) == First(word, Words(rest, Bare, None))
  {
    assert (" " + rest)[1..] == rest && (" " + rest)[0] == ' ';
  }

  /** Splitting what `ShellWords` writes gives back the arguments, whatever they hold. */
  lemma {:induction false} ShellWordsRoundTrip(argv: seq<string>)
    ensures WordsOf(ShellWords(argv)) == Some(argv)
  {
    if argv != [] {
      var (word, more) := (argv[0], argv[1..]);
      assert argv == [word] + more;
      if more == [] {
        assert Quoted(word) + "" == Quoted(word);
        QuotedReadsBack(word, "");
        WordEnds(word, "");
        assert argv == [word];
      } else {
        ShellWordsRoundTrip(more);
        assert ShellWords(argv) == Quoted(word) + (" " + ShellWords(more));
        QuotedReadsBack(word, " " + ShellWords(more));
        WordEnds(word, ShellWords(more));
      }
    }
  }

  // ---------------------------------------------------------------- naming the launcher

  predicate QuoteMark(c: char) {
    c in "'\"\\"
  }

  function Unquoted(s: string): string {
    if s == "" then "" else (if QuoteMark(s[0]) then "" else [s[0]]) + Unquoted(s[1..])
  }

  function Lowered(lower: char -> string, s: string): string {
    if s == "" then "" else lower(s[0]) + Lowered(lower, s[1..])
  }

  predicate NameCharacter(c: char) {
    'a' <= c <= 'z' || '0' <= c <= '9' || c in "_-./"
  }

  /** The pieces between separators; a run of separators adds only empty pieces. */
  function Pieces(s: string, piece: string): seq<string>
    decreases |s|
  {
    if s == "" then [piece]
    else if NameCharacter(s[0]) then Pieces(s[1..], piece + [s[0]])
    else [piece] + Pieces(s[1..], "")
  }

  predicate EndsWith(s: string, end: string) {
    |end| <= |s| && s[|s| - |end|..] == end
  }

  predicate AnyEnds(pieces: seq<string>) {
    exists piece | piece in pieces :: EndsWith(piece, LAUNCHER)
  }

  predicate NamesAgentCli(lower: char -> string, command: string) {
    AnyEnds(Pieces(Lowered(lower, Unquoted(command)), ""))
  }

  /** The launcher's name stands at `i`, and no name character follows it. */
  ghost predicate NamedAt(s: string, i: nat) {
    && i + |LAUNCHER| <= |s| && s[i..i + |LAUNCHER|] == LAUNCHER
    && (i + |LAUNCHER| < |s| ==> !NameCharacter(s[i + |LAUNCHER|]))
  }

  ghost predicate Named(s: string) {
    exists i :: 0 <= i && NamedAt(s, i)
  }

  lemma LauncherIsAName()
    ensures forall c | c in LAUNCHER :: NameCharacter(c)
    ensures LAUNCHER != ""
  {
  }

  /** The piece under way joined with what follows: the launcher ends some piece exactly when it stands there as a name. */
  lemma {:induction false} PiecesName(s: string, piece: string)
    requires forall c | c in piece :: NameCharacter(c)
    ensures AnyEnds(Pieces(s, piece)) <==> Named(piece + s)
    decreases |s|
  {
    LauncherIsAName();
    hide LAUNCHER;
    if s == "" {
      assert piece + s == piece && Pieces(s, piece) == [piece];
      EndOfPiece(piece, "");
      if i :| 0 <= i && NamedAt(piece, i) {
        EndsHere(piece, "", i);
      }
    } else if NameCharacter(s[0]) {
      assert piece + [s[0]] + s[1..] == piece + s;
      PiecesName(s[1..], piece + [s[0]]);
    } else {
      var rest := s[1..];
      assert "" + rest == rest;
      PiecesName(rest, "");
      EndOfPiece(piece, s);
      if i :| 0 <= i && NamedAt(rest, i) {
        assert NamedAt(piece + s, i + |piece| + 1) by { LaterPiece(piece, s, i); }
      }
      if i :| 0 <= i && NamedAt(piece + s, i) {
        if i > |piece| {
          assert NamedAt(rest, i - |piece| - 1) by { LaterName(piece, s, i); }
        } else {
          EndsHere(piece, s, i);
        }
      }
      assert forall p :: p in Pieces(s, piece) <==> p == piece || p in Pieces(rest, "");
    }
  }

  /** A piece that ends with the launcher, and ends there, names it. */
  lemma {:induction false} EndOfPiece(piece: string, s: string)
    requires s == "" || !NameCharacter(s[0])
    ensures EndsWith(piece, LAUNCHER) ==> NamedAt(piece + s, |piece| - |LAUNCHER|)
  {
    hide LAUNCHER;
    if EndsWith(piece, LAUNCHER) {
      var i := |piece| - |LAUNCHER|;
      assert (piece + s)[i..i + |LAUNCHER|] == piece[i..];
    }
  }

  /** A name that begins in a piece lies in it and ends it. */
  lemma {:induction false} EndsHere(piece: string, s: string, i: nat)
    requires i <= |piece| && NamedAt(piece + s, i) && (s == "" || !NameCharacter(s[0]))
    requires (forall c | c in piece :: NameCharacter(c)) && (forall c | c in LAUNCHER :: NameCharacter(c)) && LAUNCHER != ""
    ensures EndsWith(piece, LAUNCHER)
  {
    hide LAUNCHER, NameCharacter;
    var all := piece + s;
    forall j | i <= j < i + |LAUNCHER|
      ensures NameCharacter(all[j])
    {
      assert all[i..i + |LAUNCHER|][j - i] == LAUNCHER[j - i];
    }
    assert s != "" ==> all[|piece|] == s[0];
    assert forall j | 0 <= j < |piece| :: NameCharacter(all[j]);
    assert i + |LAUNCHER| == |piece|;
    assert all[i..i + |LAUNCHER|] == piece[i..];
  }

  lemma {:induction false} LaterPiece(piece: string, s: string, i: nat)
    requires s != "" && NamedAt(s[1..], i)
    ensures NamedAt(piece + s, i + |piece| + 1)
  {
    hide LAUNCHER;
    var at := i + |piece| + 1;
    assert (piece + s)[at..at + |LAUNCHER|] == s[1..][i..i + |LAUNCHER|];
  }

  lemma {:induction false} LaterName(piece: string, s: string, i: nat)
    requires s != "" && i > |piece| && NamedAt(piece + s, i)
    ensures NamedAt(s[1..], i - |piece| - 1)
  {
    hide LAUNCHER;
    var at := i - |piece| - 1;
    assert (piece + s)[i..i + |LAUNCHER|] == s[1..][at..at + |LAUNCHER|];
  }

  /** The conservative test is exact in its own terms: the name stands somewhere, in any case and with quotes taken out, as the end of a name. */
  lemma {:induction false} NamesWhenItStands(lower: char -> string, command: string)
    ensures NamesAgentCli(lower, command) <==> Named(Lowered(lower, Unquoted(command)))
  {
    hide AnyEnds, Named, Pieces, Lowered, Unquoted;
    var s := Lowered(lower, Unquoted(command));
    assert "" + s == s;
    PiecesName(s, "");
  }

  /** Lower-casing leaves the launcher's characters and blanks alone. */
  ghost predicate KeepsLower(lower: char -> string) {
    forall c :: 'a' <= c <= 'z' || c == '-' || Blank(c) ==> lower(c) == [c]
  }

  lemma {:induction false} WordUnderWay(s: string, mode: Mode, word: string)
    requires Words(s, mode, Some(word)).Some?
    ensures Words(s, mode, Some(word)).value != [] && word <= Words(s, mode, Some(word)).value[0]
    decreases |s|
  {
    if s != "" {
      var (c, rest) := (s[0], s[1..]);
      if mode == Single {
        WordUnderWay(rest, if c == '\'' then Bare else Single, if c == '\'' then word else word + [c]);
      } else if mode == Double {
        if c == '"' {
          WordUnderWay(rest, Bare, word);
        } else if c == '\\' && rest != "" && EscapedInDouble(rest[0]) {
          WordUnderWay(rest[1..], Double, word + if rest[0] == '\n' then "" else [rest[0]]);
        } else {
          WordUnderWay(rest, Double, word + [c]);
        }
      } else if c == '\'' {
        WordUnderWay(rest, Single, word);
      } else if c == '"' {
        WordUnderWay(rest, Double, word);
      } else if c == '\\' {
        WordUnderWay(rest[1..], Bare, if rest[0] == '\n' then word else word + [rest[0]]);
      } else if !Blank(c) {
        WordUnderWay(rest, Bare, word + [c]);
      }
    }
  }

  lemma {:induction false} PlainStep(s: string, mode: Mode, word: string)
    requires s != "" && !(mode == Bare && Blank(s[0]))
    requires PlainlyQuoted(s, mode) && Words(s, mode, Some(word)).Some?
    requires Words(s, mode, Some(word)).value != [] ==> forall c | c in Words(s, mode, Some(word)).value[0] :: !QuoteMark(c)
    ensures PlainlyQuoted(s[1..], ModeAfter(mode, s[0]))
    ensures Words(s, mode, Some(word)) == Words(s[1..], ModeAfter(mode, s[0]), Some(if Mark(mode, s[0]) then word else word + [s[0]]))
  {
  }

  /** The rest of a word without quote marks stands in the unquoted text, followed by a blank or the end. */
  lemma {:induction false} WordStandsUnquoted(s: string, mode: Mode, word: string) returns (tail: string)
    requires PlainlyQuoted(s, mode) && Words(s, mode, Some(word)).Some?
    requires Words(s, mode, Some(word)).value != [] ==> forall c | c in Words(s, mode, Some(word)).value[0] :: !QuoteMark(c)
    ensures Words(s, mode, Some(word)).value != []
    ensures word + Unquoted(s) == Words(s, mode, Some(word)).value[0] + tail
    ensures tail == "" || Blank(tail[0])
    decreases |s|
  {
    WordUnderWay(s, mode, word);
    if s == "" {
      tail := "";
    } else if mode == Bare && Blank(s[0]) {
      tail := Unquoted(s);
    } else {
      PlainStep(s, mode, word);
      hide Words, PlainlyQuoted, Unquoted;
      var word' := if Mark(mode, s[0]) then word else word + [s[0]];
      WordUnderWay(s[1..], ModeAfter(mode, s[0]), word');
      if !Mark(mode, s[0]) {
        assert word'[|word|] == s[0] && s[0] in Words(s, mode, Some(word)).value[0];
      }
      UnquotedStep(s, mode, word);
      tail := WordStandsUnquoted(s[1..], ModeAfter(mode, s[0]), word');
    }
  }

  lemma {:induction false} UnquotedStep(s: string, mode: Mode, word: string)
    requires s != "" && (QuoteMark(s[0]) <==> Mark(mode, s[0]))
    ensures word + Unquoted(s) == (if Mark(mode, s[0]) then word else word + [s[0]]) + Unquoted(s[1..])
  {
    var rest := Unquoted(s[1..]);
    assert [s[0]] + rest == Unquoted(s) || rest == Unquoted(s);
  }

  lemma {:induction false} LoweredJoin(lower: char -> string, a: string, b: string)
    ensures Lowered(lower, a + b) == Lowered(lower, a) + Lowered(lower, b)
  {
    if a == "" {
      assert a + b == b;
    } else {
      assert (a + b)[1..] == a[1..] + b;
      LoweredJoin(lower, a[1..], b);
    }
  }

  lemma {:induction false} LoweredKeeps(lower: char -> string, s: string)
    requires KeepsLower(lower) && forall c | c in s :: 'a' <= c <= 'z' || c == '-'
    ensures Lowered(lower, s) == s
  {
    if s != "" {
      assert s[0] in s && forall c | c in s[1..] :: c in s;
      LoweredKeeps(lower, s[1..]);
      assert s == [s[0]] + s[1..];
    }
  }

  lemma {:induction false} PieceBefore(s: string, tail: string, piece: string)
    requires (forall c | c in s :: NameCharacter(c)) && (tail == "" || Blank(tail[0]))
    ensures piece + s in Pieces(s + tail, piece)
  {
    if s == "" {
      assert s + tail == tail && piece + s == piece;
    } else {
      assert (s + tail)[1..] == s[1..] + tail;
      assert forall c | c in s[1..] :: c in s;
      PieceBefore(s[1..], tail, piece + [s[0]]);
      assert piece + [s[0]] + s[1..] == piece + s;
    }
  }

  /** Leading blanks of the command become empty pieces before the launcher's. */
  lemma {:induction false} LauncherIsAPiece(lower: char -> string, s: string)
    requires KeepsLower(lower) && PlainlyQuoted(s, Bare) && Words(s, Bare, None).Some?
    requires Words(s, Bare, None).value != [] && Words(s, Bare, None).value[0] == LAUNCHER
    ensures LAUNCHER in Pieces(Lowered(lower, Unquoted(s)), "")
  {
    if Blank(s[0]) {
      LauncherIsAPiece(lower, s[1..]);
      BlankIsAPiece(lower, s);
    } else {
      LauncherFirst(lower, s);
    }
  }

  lemma BlankIsAPiece(lower: char -> string, s: string)
    requires KeepsLower(lower) && s != "" && Blank(s[0])
    ensures Pieces(Lowered(lower, Unquoted(s)), "") == [""] + Pieces(Lowered(lower, Unquoted(s[1..])), "")
  {
    var rest := Unquoted(s[1..]);
    assert Unquoted(s) == [s[0]] + rest;
    assert ([s[0]] + rest)[1..] == rest;
    assert Lowered(lower, Unquoted(s)) == [s[0]] + Lowered(lower, rest);
    assert ([s[0]] + Lowered(lower, rest))[1..] == Lowered(lower, rest);
  }

  lemma LauncherStands(s: string) returns (tail: string)
    requires s != "" && !Blank(s[0]) && PlainlyQuoted(s, Bare) && Words(s, Bare, None).Some?
    requires Words(s, Bare, None).value != [] && Words(s, Bare, None).value[0] == LAUNCHER
    ensures Unquoted(s) == LAUNCHER + tail && (tail == "" || Blank(tail[0]))
  {
    assert s[0] != '~' && s[0] != '#';
    assert Words(s, Bare, None) == Words(s, Bare, Some(""));
    tail := WordStandsUnquoted(s, Bare, "");
    assert "" + Unquoted(s) == Unquoted(s);
  }

  lemma HeadIsAPiece(lower: char -> string, head: string, tail: string)
    requires KeepsLower(lower) && (tail == "" || Blank(tail[0]))
    requires forall c | c in head :: 'a' <= c <= 'z' || c == '-'
    ensures head in Pieces(Lowered(lower, head + tail), "")
  {
    hide Pieces;
    LoweredJoin(lower, head, tail);
    LoweredKeeps(lower, head);
    var lowered := Lowered(lower, tail);
    assert tail != "" ==> lowered == [tail[0]] + Lowered(lower, tail[1..]);
    PieceBefore(head, lowered, "");
    assert "" + head == head;
  }

  lemma {:induction false} LauncherFirst(lower: char -> string, s: string)
    requires KeepsLower(lower) && s != "" && !Blank(s[0]) && PlainlyQuoted(s, Bare) && Words(s, Bare, None).Some?
    requires Words(s, Bare, None).value != [] && Words(s, Bare, None).value[0] == LAUNCHER
    ensures LAUNCHER in Pieces(Lowered(lower, Unquoted(s)), "")
  {
    hide Pieces, Lowered, Unquoted, Words, PlainlyQuoted, KeepsLower;
    var tail := LauncherStands(s);
    HeadIsAPiece(lower, LAUNCHER, tail);
  }

  /** Every command the scan accepts also names the launcher, so no accepted command slips past the conservative test. */
  lemma AcceptedCommandsNameTheCli(lower: char -> string, command: string)
    requires KeepsLower(lower) && Acceptable(command)
    ensures NamesAgentCli(lower, command)
  {
    LauncherIsAPiece(lower, command);
    assert EndsWith(LAUNCHER, LAUNCHER);
  }
}
