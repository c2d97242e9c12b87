/** Shell quoting, and the shell lexer that reads it back: token recognition and quoting as in sections
2.2.1 (backslash), 2.2.2 (single quotes), 2.2.3 (double quotes) and 2.3 of the XCU Shell Command
Language of POSIX.1-2017. */
module ShellWords {
  import opened Wrappers

  // ---------- the lexer ----------

  // A character of a word; one that is quoted is literal and takes part in no expansion.
  datatype Glyph = Quoted(c: char) | Bare(c: char)

  type Word = seq<Glyph>

  datatype Token = W(word: Word) | Op(op: string)

  // DoubleEscape and BareEscape: just behind a backslash.
  datatype Mode = Plain | Single | Double | BareEscape | DoubleEscape | Comment

  predicate IsBlank(c: char) { c == ' ' || c == '\t' }

  predicate IsOperator(c: char) { c in "&|;<>()\n" }

  /** The length of the operator token at the start of s. */
  function OperatorLength(s: string): (n: nat)
    requires s != []
    ensures 1 <= n <= |s|
  {
    if |s| >= 3 && s[..3] == "<<-" then 3
    else if |s| >= 2 && s[..2] in {"&&", "||", ";;", "<<", ">>", "<&", ">&", "<>", ">|"} then 2
    else 1
  }

  function Flush(word: Option<Word>): seq<Token> {
    match word
    case None => []
    case Some(w) => [W(w)]
  }

  function Extend(word: Option<Word>, w: Word): Option<Word> {
    match word
    case None => Some(w)
    case Some(before) => Some(before + w)
  }

  function Prepend(front: seq<Token>, rest: Option<seq<Token>>): Option<seq<Token>> {
    match rest
    case None => None
    case Some(tokens) => Some(front + tokens)
  }

  /** The tokens of s, read from within `mode` with `word` begun; None when a quotation is left open. */
  function Lex(s: string, word: Option<Word>, mode: Mode): Option<seq<Token>> {
    if s == [] then if mode.Plain? || mode.Comment? then Some(Flush(word)) else None
    else
      var c, rest := s[0], s[1..];
      match mode
      case Plain =>
        if c == '\\' then Lex(rest, word, BareEscape)
        else if c == '\'' then Lex(rest, Extend(word, []), Single)
        else if c == '"' then Lex(rest, Extend(word, []), Double)
        else if IsBlank(c) then Prepend(Flush(word), Lex(rest, None, Plain))
        else if IsOperator(c) then
          var n := OperatorLength(s);
          Prepend(Flush(word) + [Op(s[..n])], Lex(s[n..], None, Plain))
        else if c == '#' && word.None? then Lex(rest, None, Comment)
        else Lex(rest, Extend(word, [Bare(c)]), Plain)
      case Single =>
        if c == '\'' then Lex(rest, word, Plain) else Lex(rest, Extend(word, [Quoted(c)]), Single)
      case Double =>
        if c == '"' then Lex(rest, word, Plain)
        else if c == '\\' then Lex(rest, word, DoubleEscape)
        else if c == '$' || c == '`' then Lex(rest, Extend(word, [Bare(c)]), Double)
        else Lex(rest, Extend(word, [Quoted(c)]), Double)
      case BareEscape =>
        // a backslash and a newline join two lines
        if c == '\n' then Lex(rest, word, Plain) else Lex(rest, Extend(word, [Quoted(c)]), Plain)
      case DoubleEscape =>
        if c == '\n' then Lex(rest, word, Double)
        else if c in "$`\"\\" then Lex(rest, Extend(word, [Quoted(c)]), Double)
        else Lex(rest, Extend(word, [Quoted('\\'), Quoted(c)]), Double)
      case Comment =>
        if c == '\n' then Prepend([Op([c])], Lex(rest, None, Plain)) else Lex(rest, None, Comment)
  }

  function Tokens(s: string): Option<seq<Token>> { Lex(s, None, Plain) }

  // ---------- the printer ----------

  /** Every single quote leaves the quotation, stands behind a backslash, and enters it again. */
  function Escape(value: string): string {
    if value == [] then []
    else (if value[0] == '\'' then "'\\''" else [value[0]]) + Escape(value[1..])
  }

  function ShellQuote(value: string): string {
    "'" + Escape(value) + "'"
  }

  function Join(parts: seq<string>): string {
    if parts == [] then []
    else if |parts| == 1 then parts[0]
    else parts[0] + " " + Join(parts[1..])
  }

  function QuoteAll(values: seq<string>): seq<string> {
    if values == [] then [] else [ShellQuote(values[0])] + QuoteAll(values[1..])
  }

  /** Without repetitions, in order of first occurrence. */
  function Unique(paths: seq<string>): (unique: seq<string>)
    ensures forall p :: p in unique <==> p in paths
    ensures forall i, j :: 0 <= i < j < |unique| ==> unique[i] != unique[j]
  {
    if paths == [] then []
    else
      var before, p := Unique(paths[..|paths| - 1]), paths[|paths| - 1];
      assert paths == paths[..|paths| - 1] + [p];
      if p in before then before else before + [p]
  }

  function MkdirCommand(paths: seq<string>): string {
    "mkdir -p " + Join(QuoteAll(Unique(paths)))
  }

  // An environment, sorted by name.
  datatype Variable = Variable(name: string, value: string)

  function Assignments(env: seq<Variable>): seq<string> {
    if env == [] then [] else [env[0].name + "=" + ShellQuote(env[0].value)] + Assignments(env[1..])
  }

  function WorkspaceEnvPrefix(env: seq<Variable>): string {
    if env == [] then "" else "env " + Join(Assignments(env)) + " "
  }

  function InnerShell(env: seq<Variable>, command: string): string {
    WorkspaceEnvPrefix(env) + "sh -lc " + ShellQuote(command)
  }

  /** A command for the workspace's own shell, without a git credential: as it is when no environment is
  given, and in an inner shell when one is, be it empty. */
  function WorkspaceShellCommand(command: string, env: Option<seq<Variable>>): string {
    match env
    case None => command
    case Some(variables) => InnerShell(variables, command)
  }

  /** The command string that runs remotely. */
  function RemoteCommand(remoteCwd: string, command: string): string {
    "cd " + ShellQuote(remoteCwd) + " && " + command
  }

  // ---------- reading quoted values back ----------

  function Literal(value: string): (w: Word)
    ensures |w| == |value| && forall i :: 0 <= i < |w| ==> w[i] == Quoted(value[i])
  {
    seq(|value|, i requires 0 <= i < |value| => Quoted(value[i]))
  }

  function Plainly(value: string): (w: Word)
    ensures |w| == |value| && forall i :: 0 <= i < |w| ==> w[i] == Bare(value[i])
  {
    seq(|value|, i requires 0 <= i < |value| => Bare(value[i]))
  }

  /** What a word stands for when nothing in it is expanded. */
  function TextOf(w: Word): (value: string)
    ensures |value| == |w| && forall i :: 0 <= i < |w| ==> value[i] == w[i].c
  {
    seq(|w|, i requires 0 <= i < |w| => w[i].c)
  }

  /** Inside single quotes, the escaped value and the closing quote add exactly the value. */
  lemma {:induction false} EscapeReadsBack(value: string, rest: string, w: Word)
    ensures Lex(Escape(value) + "'" + rest, Some(w), Single) == Lex(rest, Some(w + Literal(value)), Plain)
  {
    if value == [] {
      assert Escape(value) + "'" + rest == "'" + rest;
      assert ("'" + rest)[1..] == rest;
      assert w + Literal(value) == w;
    } else {
      var tail := Escape(value[1..]) + "'" + rest;
      var more := w + [Quoted(value[0])];
      EscapeReadsBack(value[1..], rest, more);
      assert more + Literal(value[1..]) == w + Literal(value);
      if value[0] == '\'' {
        assert Escape(value) + "'" + rest == "'\\''" + tail;
        QuoteOutAndIn(tail, w);
      } else {
        assert Escape(value) + "'" + rest == [value[0]] + tail;
        assert ([value[0]] + tail)[1..] == tail;
      }
    }
  }

  lemma QuoteOutAndIn(tail: string, w: Word)
    ensures Lex("'\\''" + tail, Some(w), Single) == Lex(tail, Some(w + [Quoted('\'')]), Single)
  {
    var s0 := "'\\''" + tail;
    var s1 := "\\''" + tail;
    var s2 := "''" + tail;
    var s3 := "'" + tail;
    assert s0[1..] == s1 && s1[1..] == s2 && s2[1..] == s3 && s3[1..] == tail;
    assert Lex(s0, Some(w), Single) == Lex(s1, Some(w), Plain);
    assert Lex(s1, Some(w), Plain) == Lex(s2, Some(w), BareEscape);
    assert Lex(s2, Some(w), BareEscape) == Lex(s3, Some(w + [Quoted('\'')]), Plain);
    assert (w + [Quoted('\'')]) + [] == w + [Quoted('\'')];
  }

  /** Wherever a word may begin or go on, the lexer reads a quoted value as exactly that value, every
  character literal, and goes on with whatever text follows. */
  lemma QuotedValueIsOnePart(value: string, rest: string, word: Option<Word>)
    ensures Lex(ShellQuote(value) + rest, word, Plain) == Lex(rest, Extend(word, Literal(value)), Plain)
  {
    var inner := Escape(value) + "'" + rest;
    assert ShellQuote(value) + rest == "'" + inner;
    assert ("'" + inner)[1..] == inner;
    var w := Extend(word, []).value;
    EscapeReadsBack(value, rest, w);
    assert Some(w + Literal(value)) == Extend(word, Literal(value)) by {
      if word.None? { assert [] + Literal(value) == Literal(value); } else { assert word.value + [] == word.value; }
    }
  }

  predicate Harmless(c: char) {
    !IsBlank(c) && !IsOperator(c) && c != '\\' && c != '\'' && c != '"' && c != '#'
  }

  lemma PlainCharacter(c: char, rest: string, word: Option<Word>)
    requires Harmless(c)
    ensures Lex([c] + rest, word, Plain) == Lex(rest, Extend(word, [Bare(c)]), Plain)
  {
    assert ([c] + rest)[1..] == rest;
  }

  lemma ExtendStepwise(text: string, word: Option<Word>)
    requires text != []
    ensures Extend(Extend(word, [Bare(text[0])]), Plainly(text[1..])) == Extend(word, Plainly(text))
  {
    assert [Bare(text[0])] + Plainly(text[1..]) == Plainly(text);
    if word.Some? {
      assert (word.value + [Bare(text[0])]) + Plainly(text[1..]) == word.value + Plainly(text);
    }
  }

  /** Text without special characters is read as itself. */
  lemma {:induction false} PlainText(text: string, rest: string, word: Option<Word>)
    requires text != [] && forall i :: 0 <= i < |text| ==> Harmless(text[i])
    ensures Lex(text + rest, word, Plain) == Lex(rest, Extend(word, Plainly(text)), Plain)
  {
    hide Lex;
    var c, others := text[0], text[1..];
    var more := Extend(word, [Bare(c)]);
    assert text + rest == [c] + (others + rest);
    PlainCharacter(c, others + rest, word);
    if others == [] {
      assert others + rest == rest && Plainly(text) == [Bare(c)];
    } else {
      PlainText(others, rest, more);
      ExtendStepwise(text, word);
    }
  }

  lemma BlankEndsWord(rest: string, w: Word)
    ensures Lex(" " + rest, Some(w), Plain) == Prepend([W(w)], Tokens(rest))
  {
    assert (" " + rest)[1..] == rest;
  }

  /** A plain word and a blank. */
  lemma PlainWord(text: string, rest: string)
    requires text != [] && forall i :: 0 <= i < |text| ==> Harmless(text[i])
    ensures Tokens(text + " " + rest) == Prepend([W(Plainly(text))], Tokens(rest))
  {
    assert text + " " + rest == text + (" " + rest);
    PlainText(text, " " + rest, None);
    BlankEndsWord(rest, Plainly(text));
  }

  function LiteralWords(values: seq<string>): seq<Token> {
    if values == [] then [] else [W(Literal(values[0]))] + LiteralWords(values[1..])
  }

  /** A list of quoted values, joined by blanks, lexes back to the list. */
  lemma {:induction false} QuotedListReadsBack(values: seq<string>)
    ensures Tokens(Join(QuoteAll(values))) == Some(LiteralWords(values))
  {
    if values != [] {
      var quoted := QuoteAll(values);
      if |values| == 1 {
        assert values[1..] == [] && QuoteAll(values[1..]) == [];
        assert quoted == [ShellQuote(values[0])] && ShellQuote(values[0]) + "" == ShellQuote(values[0]);
        QuotedValueIsOnePart(values[0], "", None);
        assert Lex("", Some(Literal(values[0])), Plain) == Some([W(Literal(values[0]))]);
        assert Join(quoted) == ShellQuote(values[0]);
        assert LiteralWords(values[1..]) == [] && LiteralWords(values) == [W(Literal(values[0]))];
      } else {
        var rest := Join(QuoteAll(values[1..]));
        assert quoted[1..] == QuoteAll(values[1..]);
        assert Join(quoted) == ShellQuote(values[0]) + (" " + rest);
        QuotedValueIsOnePart(values[0], " " + rest, None);
        BlankEndsWord(rest, Literal(values[0]));
        QuotedListReadsBack(values[1..]);
      }
    }
  }

  /** mkdir is given exactly the distinct paths, each as one literal argument. */
  lemma MkdirReadsBack(paths: seq<string>)
    ensures Tokens(MkdirCommand(paths)) == Some([W(Plainly("mkdir")), W(Plainly("-p"))] + LiteralWords(Unique(paths)))
  {
    var list := Join(QuoteAll(Unique(paths)));
    assert MkdirCommand(paths) == "mkdir" + " " + ("-p" + " " + list);
    PlainWord("mkdir", "-p" + " " + list);
    PlainWord("-p", list);
    QuotedListReadsBack(Unique(paths));
    PrependTwice([W(Plainly("mkdir"))], [W(Plainly("-p"))], Tokens(list));
    assert [W(Plainly("mkdir"))] + [W(Plainly("-p"))] == [W(Plainly("mkdir")), W(Plainly("-p"))];
  }

  // ---------- environments and nested shells ----------

  predicate NameStart(c: char) { 'A' <= c <= 'Z' || 'a' <= c <= 'z' || c == '_' }

  /** What an environment variable name has to look like. */
  predicate SafeName(name: string) {
    && name != [] && NameStart(name[0])
    && forall i :: 0 <= i < |name| ==> NameStart(name[i]) || '0' <= name[i] <= '9'
  }

  function AssignmentWord(v: Variable): Word {
    Plainly(v.name + "=") + Literal(v.value)
  }

  function AssignmentWords(env: seq<Variable>): seq<Token> {
    if env == [] then [] else [W(AssignmentWord(env[0]))] + AssignmentWords(env[1..])
  }

  lemma AssignmentReadsBack(v: Variable, rest: string)
    requires SafeName(v.name)
    ensures Tokens(v.name + "=" + ShellQuote(v.value) + " " + rest) == Prepend([W(AssignmentWord(v))], Tokens(rest))
  {
    var tail := " " + rest;
    assert v.name + "=" + ShellQuote(v.value) + " " + rest == (v.name + "=") + (ShellQuote(v.value) + tail);
    assert forall i :: 0 <= i < |v.name + "="| ==> Harmless((v.name + "=")[i]);
    PlainText(v.name + "=", ShellQuote(v.value) + tail, None);
    QuotedValueIsOnePart(v.value, tail, Some(Plainly(v.name + "=")));
    BlankEndsWord(rest, AssignmentWord(v));
  }

  lemma {:induction false} AssignmentsReadBack(env: seq<Variable>, rest: string)
    requires env != [] && forall i :: 0 <= i < |env| ==> SafeName(env[i].name)
    ensures Tokens(Join(Assignments(env)) + " " + rest) == Prepend(AssignmentWords(env), Tokens(rest))
  {
    var first := env[0].name + "=" + ShellQuote(env[0].value);
    if |env| == 1 {
      assert env[1..] == [] && Assignments(env) == [first];
      AssignmentReadsBack(env[0], rest);
      assert [W(AssignmentWord(env[0]))] + [] == [W(AssignmentWord(env[0]))];
      assert AssignmentWords(env[1..]) == [];
    } else {
      var others := Join(Assignments(env[1..])) + " " + rest;
      assert Assignments(env)[1..] == Assignments(env[1..]);
      assert Join(Assignments(env)) + " " + rest == first + " " + others;
      AssignmentReadsBack(env[0], others);
      AssignmentsReadBack(env[1..], rest);
      PrependTwice([W(AssignmentWord(env[0]))], AssignmentWords(env[1..]), Tokens(rest));
    }
  }

  lemma PrependTwice(a: seq<Token>, b: seq<Token>, rest: Option<seq<Token>>)
    ensures Prepend(a, Prepend(b, rest)) == Prepend(a + b, rest)
  {
    if rest.Some? { assert a + (b + rest.value) == (a + b) + rest.value; }
  }

  /** The words that run the inner shell: the last one is the whole command, as one literal argument. */
  function InnerShellWords(env: seq<Variable>, command: string): seq<Token> {
    (if env == [] then [] else [W(Plainly("env"))] + AssignmentWords(env))
      + [W(Plainly("sh")), W(Plainly("-lc")), W(Literal(command))]
  }

  lemma ShellReadsBack(command: string)
    ensures Tokens("sh -lc " + ShellQuote(command)) == Some([W(Plainly("sh")), W(Plainly("-lc")), W(Literal(command))])
  {
    var q := ShellQuote(command);
    assert "sh -lc " + q == "sh" + " " + ("-lc" + " " + q);
    PlainWord("sh", "-lc" + " " + q);
    PlainWord("-lc", q);
    assert q + "" == q;
    QuotedValueIsOnePart(command, "", None);
    assert Tokens(q) == Some([W(Literal(command))]);
    PrependTwice([W(Plainly("sh"))], [W(Plainly("-lc"))], Tokens(q));
    assert [W(Plainly("sh"))] + [W(Plainly("-lc"))] + [W(Literal(command))]
        == [W(Plainly("sh")), W(Plainly("-lc")), W(Literal(command))];
  }

  lemma InnerShellReadsBack(env: seq<Variable>, command: string)
    requires forall i :: 0 <= i < |env| ==> SafeName(env[i].name)
    ensures Tokens(InnerShell(env, command)) == Some(InnerShellWords(env, command))
  {
    hide Lex, Tokens, Plainly, Literal, ShellQuote, Join, Assignments, AssignmentWords;
    var shell := "sh -lc " + ShellQuote(command);
    ShellReadsBack(command);
    if env == [] {
      assert InnerShell(env, command) == shell;
      assert [] + Tokens(shell).value == Tokens(shell).value;
    } else {
      var list := Join(Assignments(env));
      assert InnerShell(env, command) == "env" + " " + (list + " " + shell);
      PlainWord("env", list + " " + shell);
      AssignmentsReadBack(env, shell);
      PrependTwice([W(Plainly("env"))], AssignmentWords(env), Tokens(shell));
    }
  }

  /** The workspace's shell reads the command's own tokens, or one inner shell that is given the command. */
  lemma WorkspaceCommandReadsBack(command: string, env: Option<seq<Variable>>)
    requires env.Some? ==> forall i :: 0 <= i < |env.value| ==> SafeName(env.value[i].name)
    ensures Tokens(WorkspaceShellCommand(command, env))
         == if env.None? then Tokens(command) else Some(InnerShellWords(env.value, command))
  {
    if env.Some? { InnerShellReadsBack(env.value, command); }
  }

  lemma AndReadsAsOperator(rest: string, w: Word)
    ensures Lex(" && " + rest, Some(w), Plain) == Prepend([W(w), Op("&&")], Tokens(rest))
  {
    var s := "&& " + rest;
    assert (" && " + rest)[1..] == s;
    AndIsOneOperator(rest);
    PrependTwice([W(w)], [Op("&&")], Tokens(rest));
    assert [W(w)] + [Op("&&")] == [W(w), Op("&&")];
  }

  lemma AndIsOneOperator(rest: string)
    ensures Tokens("&& " + rest) == Prepend([Op("&&")], Tokens(rest))
  {
    var s := "&& " + rest;
    assert s[0] == '&' && s[1] == '&' && s[..2] == "&&" && s[..2] != "<<";
    assert |s| >= 3 ==> s[..3][0] != '<';
    assert OperatorLength(s) == 2;
    assert s[2..] == " " + rest && (" " + rest)[1..] == rest;
    assert Lex(" " + rest, None, Plain) == Prepend([], Tokens(rest));
    PrependTwice([Op("&&")], [], Tokens(rest));
    assert [Op("&&")] + [] == [Op("&&")] && [] + [Op("&&")] == [Op("&&")];
    assert Flush(None) + [Op("&&")] == [Op("&&")];
  }

  /** The remote command changes into exactly the directory given, then runs the tokens of the command
  given, unchanged. */
  lemma RemoteCommandReadsBack(remoteCwd: string, command: string)
    ensures Tokens(RemoteCommand(remoteCwd, command))
         == Prepend([W(Plainly("cd")), W(Literal(remoteCwd)), Op("&&")], Tokens(command))
  {
    var tail := " && " + command;
    assert RemoteCommand(remoteCwd, command) == "cd" + " " + (ShellQuote(remoteCwd) + tail);
    PlainWord("cd", ShellQuote(remoteCwd) + tail);
    QuotedValueIsOnePart(remoteCwd, tail, None);
    AndReadsAsOperator(command, Literal(remoteCwd));
    PrependTwice([W(Plainly("cd"))], [W(Literal(remoteCwd)), Op("&&")], Tokens(command));
    assert [W(Plainly("cd"))] + [W(Literal(remoteCwd)), Op("&&")] == [W(Plainly("cd")), W(Literal(remoteCwd)), Op("&&")];
  }

  /** A command run in a workspace: whatever it contains, the remote shell sees one directory change
  and one inner shell, and the inner shell is given the command, character for character. */
  lemma NestedCommandArrivesUnchanged(remoteCwd: string, env: seq<Variable>, command: string)
    requires forall i :: 0 <= i < |env| ==> SafeName(env[i].name)
    ensures var tokens := Tokens(RemoteCommand(remoteCwd, InnerShell(env, command)));
            && tokens == Some([W(Plainly("cd")), W(Literal(remoteCwd)), Op("&&")] + InnerShellWords(env, command))
            && tokens.value[1] == W(Literal(remoteCwd)) && TextOf(Literal(remoteCwd)) == remoteCwd
            && tokens.value[|tokens.value| - 1] == W(Literal(command)) && TextOf(Literal(command)) == command
  {
    RemoteCommandReadsBack(remoteCwd, InnerShell(env, command));
    InnerShellReadsBack(env, command);
  }

  /** Different values are quoted differently. */
  lemma QuotingIsInjective(a: string, b: string)
    requires ShellQuote(a) == ShellQuote(b)
    ensures a == b
  {
    QuotedValueIsOnePart(a, "", None);
    QuotedValueIsOnePart(b, "", None);
    assert Lex("", Extend(None, Literal(a)), Plain) == Some([W(Literal(a))]);
    assert Lex("", Extend(None, Literal(b)), Plain) == Some([W(Literal(b))]);
    assert TextOf(Literal(a)) == a && TextOf(Literal(b)) == b;
  }
}
