/**
 The language that sh.c reads: the grammar as functions on token sequences, command lines as they are
 written, with the tree each stands for, and the proof that the grammar reads exactly these lines as
 exactly these trees.  ShellParser.dfy proves the parser of sh.c against this.
 */
module ShellGrammar {
  const MAXARGS := 10

  datatype Token = Word(text: string) | Sym(c: char) | Append

  /** A command tree; T is what stands for a word. */
  datatype Cmd<T> =
    | Exec(args: seq<T>)
    | Redir(cmd: Cmd<T>, redir: Redirection<T>)
    | Pipe(left: Cmd<T>, right: Cmd<T>)
    | List(left: Cmd<T>, right: Cmd<T>)
    | Back(cmd: Cmd<T>)

  /** `<` opens the file for reading as fd 0; `>` and `>>` both open it for writing as fd 1. */
  datatype Redirection<T> = Redirection(out: bool, file: T)

  type Tree = Cmd<string>
  type Redirs = seq<Redirection<string>>

  datatype Parsed<T> = Fine(val: T, rest: seq<Token>) | Panic

  predicate Starts(ts: seq<Token>, chars: string) {
    |ts| > 0 && ts[0].Sym? && ts[0].c in chars
  }

  predicate StartsRedir(ts: seq<Token>) {
    Starts(ts, "<>") || (|ts| > 0 && ts[0].Append?)
  }

  // ---- The grammar ------------------------------------------------------------------------------

  function Wrap<T>(c: Cmd<T>, rs: seq<Redirection<T>>): Cmd<T> {
    if rs == [] then c else Redir(Wrap(c, rs[..|rs| - 1]), rs[|rs| - 1])
  }

  function ParseRedirs(rs: Redirs, ts: seq<Token>): (r: Parsed<Redirs>)
    ensures r.Fine? ==> |r.rest| <= |ts|
    decreases |ts|
  {
    if !StartsRedir(ts) then Fine(rs, ts)
    else if |ts| > 1 && ts[1].Word? then
      ParseRedirs(rs + [Redirection(ts[0] != Sym('<'), ts[1].text)], ts[2..])
    else Panic
  }

  /** The loop of parseexec. */
  function ParseArgs(args: seq<string>, rs: Redirs, ts: seq<Token>): (r: Parsed<Tree>)
    ensures r.Fine? ==> |r.rest| <= |ts|
    decreases |ts|
  {
    if ts == [] || Starts(ts, "|)&;") then Fine(Wrap(Exec(args), rs), ts)
    else if !ts[0].Word? || |args| + 1 >= MAXARGS then Panic
    else
      match ParseRedirs(rs, ts[1..])
      case Panic => Panic
      case Fine(rs2, rest) => ParseArgs(args + [ts[0].text], rs2, rest)
  }

  function ParseBlock(ts: seq<Token>): (r: Parsed<Tree>)
    requires |ts| > 0
    ensures r.Fine? ==> |r.rest| <= |ts|
    decreases |ts|, 0
  {
    match ParseLine(ts[1..])
    case Panic => Panic
    case Fine(c, rest) =>
      if !Starts(rest, ")") then Panic
      else
        match ParseRedirs([], rest[1..])
        case Panic => Panic
        case Fine(rs, rest2) => Fine(Wrap(c, rs), rest2)
  }

  function ParseExec(ts: seq<Token>): (r: Parsed<Tree>)
    ensures r.Fine? ==> |r.rest| <= |ts|
    decreases |ts|, 1
  {
    if Starts(ts, "(") then ParseBlock(ts)
    else
      match ParseRedirs([], ts)
      case Panic => Panic
      case Fine(rs, rest) => ParseArgs([], rs, rest)
  }

  function ParsePipe(ts: seq<Token>): (r: Parsed<Tree>)
    ensures r.Fine? ==> |r.rest| <= |ts|
    decreases |ts|, 2
  {
    match ParseExec(ts)
    case Panic => Panic
    case Fine(c, rest) =>
      if !Starts(rest, "|") then Fine(c, rest)
      else
        match ParsePipe(rest[1..])
        case Panic => Panic
        case Fine(d, rest2) => Fine(Pipe(c, d), rest2)
  }

  /** The `&` loop of parseline. */
  function ParseAmps(c: Tree, ts: seq<Token>): (r: (Tree, seq<Token>))
    ensures |r.1| <= |ts| && !Starts(r.1, "&")
    decreases |ts|
  {
    if Starts(ts, "&") then ParseAmps(Back(c), ts[1..]) else (c, ts)
  }

  function ParseLine(ts: seq<Token>): (r: Parsed<Tree>)
    ensures r.Fine? ==> |r.rest| <= |ts|
    decreases |ts|, 3
  {
    match ParsePipe(ts)
    case Panic => Panic
    case Fine(c, rest) =>
      var (d, rest2) := ParseAmps(c, rest);
      if !Starts(rest2, ";") then Fine(d, rest2)
      else
        match ParseLine(rest2[1..])
        case Panic => Panic
        case Fine(e, rest3) => Fine(List(d, e), rest3)
  }

  // ---- Lines as they are written ----------------------------------------------------------------

  /** `< file`, `> file` and `>> file` */
  datatype Redirect = From(file: string) | Into(file: string) | Onto(file: string)

  /** A word and the redirections behind it. */
  datatype Arg = Arg(word: string, redirs: seq<Redirect>)

  /** A command: redirections and words in any order, or a block in parentheses. */
  datatype Command = Simple(front: seq<Redirect>, args: seq<Arg>) | Block(line: Line, redirs: seq<Redirect>)

  datatype Pipeline = Single(cmd: Command) | Piped(cmd: Command, rest: Pipeline)

  /** Pipelines, each followed by any number of `&`, with `;` between them. */
  datatype Line = Last(pipe: Pipeline, amps: nat) | Then(pipe: Pipeline, amps: nat, rest: Line)

  function RedirTokens(rs: seq<Redirect>): seq<Token> {
    if rs == [] then []
    else
      [match rs[0] case From(_) => Sym('<') case Into(_) => Sym('>') case Onto(_) => Append, Word(rs[0].file)]
      + RedirTokens(rs[1..])
  }

  function ArgTokens(args: seq<Arg>): seq<Token> {
    if args == [] then [] else [Word(args[0].word)] + RedirTokens(args[0].redirs) + ArgTokens(args[1..])
  }

  function Ampersands(n: nat): seq<Token> {
    if n == 0 then [] else [Sym('&')] + Ampersands(n - 1)
  }

  function CommandTokens(c: Command): seq<Token> {
    match c
    case Simple(front, args) => RedirTokens(front) + ArgTokens(args)
    case Block(l, rs) => [Sym('(')] + LineTokens(l) + [Sym(')')] + RedirTokens(rs)
  }

  function PipelineTokens(p: Pipeline): seq<Token> {
    match p
    case Single(c) => CommandTokens(c)
    case Piped(c, rest) => CommandTokens(c) + [Sym('|')] + PipelineTokens(rest)
  }

  function LineTokens(l: Line): seq<Token> {
    match l
    case Last(p, n) => PipelineTokens(p) + Ampersands(n)
    case Then(p, n, rest) => PipelineTokens(p) + Ampersands(n) + [Sym(';')] + LineTokens(rest)
  }

  // ---- The trees they stand for -----------------------------------------------------------------

  /** `<` opens the file for reading as fd 0; `>` and `>>` both open it for writing as fd 1. */
  function Meant(r: Redirect): Redirection<string> {
    Redirection(!r.From?, r.file)
  }

  function AllMeant(rs: seq<Redirect>): (ms: Redirs)
    ensures |ms| == |rs|
  {
    seq(|rs|, i requires 0 <= i < |rs| => Meant(rs[i]))
  }

  function Words(args: seq<Arg>): (ws: seq<string>)
    ensures |ws| == |args|
  {
    seq(|args|, i requires 0 <= i < |args| => args[i].word)
  }

  function ArgRedirs(args: seq<Arg>): seq<Redirect> {
    if args == [] then [] else args[0].redirs + ArgRedirs(args[1..])
  }

  /** t in the background, n times over. */
  function Backed(t: Tree, n: nat): Tree {
    if n == 0 then t else Back(Backed(t, n - 1))
  }

  /** The words are the arguments in order, and the redirections, wherever they stand, apply in order. */
  function CommandTree(c: Command): Tree {
    match c
    case Simple(front, args) => Wrap(Exec(Words(args)), AllMeant(front + ArgRedirs(args)))
    case Block(l, rs) => Wrap(LineTree(l), AllMeant(rs))
  }

  function PipelineTree(p: Pipeline): Tree {
    match p
    case Single(c) => CommandTree(c)
    case Piped(c, rest) => Pipe(CommandTree(c), PipelineTree(rest))
  }

  function LineTree(l: Line): Tree {
    match l
    case Last(p, n) => Backed(PipelineTree(p), n)
    case Then(p, n, rest) => List(Backed(PipelineTree(p), n), LineTree(rest))
  }

  /** At most nine words in each command, as sh.c allows. */
  predicate FitCommand(c: Command) {
    match c
    case Simple(_, args) => |args| < MAXARGS
    case Block(l, _) => FitLine(l)
  }

  predicate FitPipeline(p: Pipeline) {
    match p
    case Single(c) => FitCommand(c)
    case Piped(c, rest) => FitCommand(c) && FitPipeline(rest)
  }

  predicate FitLine(l: Line) {
    match l
    case Last(p, _) => FitPipeline(p)
    case Then(p, _, rest) => FitPipeline(p) && FitLine(rest)
  }

  // ---- What is written is read ------------------------------------------------------------------

  predicate Stop(ts: seq<Token>, chars: string) {
    ts == [] || Starts(ts, chars)
  }

  lemma {:induction false} ReadRedirs(done: Redirs, rs: seq<Redirect>, rest: seq<Token>)
    requires !StartsRedir(rest)
    ensures ParseRedirs(done, RedirTokens(rs) + rest) == Fine(done + AllMeant(rs), rest)
    decreases |rs|
  {
    if rs == [] {
      assert RedirTokens(rs) + rest == rest && done + AllMeant(rs) == done;
    } else {
      var ts := RedirTokens(rs) + rest;
      assert ts[2..] == RedirTokens(rs[1..]) + rest;
      assert ts[0] == RedirTokens(rs)[0] && ts[1] == Word(rs[0].file);
      ReadRedirs(done + [Meant(rs[0])], rs[1..], rest);
      assert done + [Meant(rs[0])] + AllMeant(rs[1..]) == done + AllMeant(rs);
    }
  }

  lemma {:induction false} ReadArgs(words: seq<string>, done: Redirs, args: seq<Arg>, rest: seq<Token>)
    requires Stop(rest, "|)&;") && |words| + |args| < MAXARGS
    ensures ParseArgs(words, done, ArgTokens(args) + rest) ==
            Fine(Wrap(Exec(words + Words(args)), done + AllMeant(ArgRedirs(args))), rest)
    decreases |args|
  {
    hide Wrap, ParseRedirs, RedirTokens, AllMeant, Words;
    if args == [] {
      assert ArgTokens(args) + rest == rest && words + Words(args) == words;
      assert done + AllMeant(ArgRedirs(args)) == done;
    } else {
      var ts, tail := ArgTokens(args) + rest, ArgTokens(args[1..]) + rest;
      var rs := args[0].redirs;
      assert ts[0] == Word(args[0].word) && ts[1..] == RedirTokens(rs) + tail;
      NoRedirNext(args[1..], rest);
      ReadRedirs(done, rs, tail);
      ReadArgs(words + [args[0].word], done + AllMeant(rs), args[1..], rest);
      FirstWord(words, args);
      MeantMore(done, rs, ArgRedirs(args[1..]));
    }
  }

  lemma FirstWord(words: seq<string>, args: seq<Arg>)
    requires args != []
    ensures words + [args[0].word] + Words(args[1..]) == words + Words(args)
  {
  }

  lemma MeantMore(done: Redirs, rs: seq<Redirect>, more: seq<Redirect>)
    ensures done + AllMeant(rs) + AllMeant(more) == done + AllMeant(rs + more)
  {
  }

  /** Words, and what stops a command, begin with no redirection. */
  lemma NoRedirNext(args: seq<Arg>, rest: seq<Token>)
    requires Stop(rest, "|)&;")
    ensures !StartsRedir(ArgTokens(args) + rest) && !Starts(ArgTokens(args) + rest, "(")
  {
    hide RedirTokens;
    if args == [] {
      assert ArgTokens(args) + rest == rest;
    } else {
      assert (ArgTokens(args) + rest)[0] == Word(args[0].word);
    }
  }

  lemma ReadSimple(front: seq<Redirect>, args: seq<Arg>, rest: seq<Token>)
    requires Stop(rest, "|)&;") && |args| < MAXARGS
    ensures ParseExec(RedirTokens(front) + ArgTokens(args) + rest) ==
            Fine(Wrap(Exec(Words(args)), AllMeant(front + ArgRedirs(args))), rest)
  {
    hide ParseBlock, Wrap, ArgTokens, ArgRedirs, AllMeant, Words, ParseRedirs, ParseArgs, StartsRedir;
    var ts, tail := RedirTokens(front) + ArgTokens(args) + rest, ArgTokens(args) + rest;
    assert ts == RedirTokens(front) + tail;
    NoRedirNext(args, rest);
    assert !Starts(ts, "(") by {
      if front != [] {
        assert ts[0] == RedirTokens(front)[0];
      } else {
        assert ts == tail;
      }
    }
    ReadRedirs([], front, tail);
    ReadArgs([], AllMeant(front), args, rest);
    MeantMore([], front, ArgRedirs(args));
    assert [] + AllMeant(front) == AllMeant(front) && [] + Words(args) == Words(args);
    assert [] + AllMeant(front + ArgRedirs(args)) == AllMeant(front + ArgRedirs(args));
  }

  lemma {:induction false} ReadCommand(c: Command, rest: seq<Token>)
    requires FitCommand(c) && Stop(rest, "|)&;")
    ensures ParseExec(CommandTokens(c) + rest) == Fine(CommandTree(c), rest)
  {
    hide Wrap, ParseArgs, ParseRedirs, ParseLine, AllMeant;
    match c
    case Simple(front, args) => ReadSimple(front, args, rest);
    case Block(l, rs) =>
      hide RedirTokens, StartsRedir;
      NoRedirNext([], rest);
      assert ArgTokens([]) + rest == rest;
      var ts := CommandTokens(c) + rest;
      var tail := [Sym(')')] + (RedirTokens(rs) + rest);
      assert ts[0] == Sym('(') && ts[1..] == LineTokens(l) + tail;
      ReadLine(l, tail);
      assert tail[1..] == RedirTokens(rs) + rest;
      ReadRedirs([], rs, rest);
      assert [] + AllMeant(rs) == AllMeant(rs);
  }

  lemma {:induction false} ReadPipeline(p: Pipeline, rest: seq<Token>)
    requires FitPipeline(p) && Stop(rest, ")&;")
    ensures ParsePipe(PipelineTokens(p) + rest) == Fine(PipelineTree(p), rest)
  {
    match p
    case Single(c) => ReadCommand(c, rest);
    case Piped(c, q) =>
      var tail := [Sym('|')] + (PipelineTokens(q) + rest);
      assert PipelineTokens(p) + rest == CommandTokens(c) + tail;
      ReadCommand(c, tail);
      assert tail[1..] == PipelineTokens(q) + rest;
      ReadPipeline(q, rest);
  }

  lemma {:induction false} ReadAmps(t: Tree, n: nat, rest: seq<Token>)
    requires !Starts(rest, "&")
    ensures ParseAmps(t, Ampersands(n) + rest) == (Backed(t, n), rest)
    decreases n
  {
    if n == 0 {
      assert Ampersands(n) + rest == rest;
    } else {
      assert (Ampersands(n) + rest)[1..] == Ampersands(n - 1) + rest;
      ReadAmps(Back(t), n - 1, rest);
      BackedOnce(t, n - 1);
    }
  }

  lemma {:induction false} BackedOnce(t: Tree, n: nat)
    ensures Backed(Back(t), n) == Back(Backed(t, n))
  {
    if n > 0 {
      BackedOnce(t, n - 1);
    }
  }

  /** A pipeline and its ampersands, as parseline reads them. */
  lemma ReadBacked(p: Pipeline, n: nat, rest: seq<Token>)
    requires FitPipeline(p) && Stop(rest, ");") && ReadsAs(p, Ampersands(n) + rest)
    ensures var r := ParsePipe(PipelineTokens(p) + (Ampersands(n) + rest));
            r.Fine? && ParseAmps(r.val, r.rest) == (Backed(PipelineTree(p), n), rest)
  {
    ReadAmps(PipelineTree(p), n, rest);
  }

  predicate ReadsAs(p: Pipeline, rest: seq<Token>) {
    ParsePipe(PipelineTokens(p) + rest) == Fine(PipelineTree(p), rest)
  }

  lemma AmpsStop(n: nat, rest: seq<Token>)
    requires Stop(rest, ");")
    ensures Stop(Ampersands(n) + rest, ")&;")
  {
    if n == 0 {
      assert Ampersands(n) + rest == rest;
    } else {
      assert (Ampersands(n) + rest)[0] == Sym('&');
    }
  }

  /** Every line of at most nine words a command, however it is written, is read as the tree it stands for. */
  lemma {:induction false} ReadLine(l: Line, rest: seq<Token>)
    requires FitLine(l) && Stop(rest, ")")
    ensures ParseLine(LineTokens(l) + rest) == Fine(LineTree(l), rest)
  {
    match l
    case Last(p, n) =>
      assert LineTokens(l) + rest == PipelineTokens(p) + (Ampersands(n) + rest);
      AmpsStop(n, rest);
      ReadPipeline(p, Ampersands(n) + rest);
      ReadBacked(p, n, rest);
    case Then(p, n, more) =>
      var tail := [Sym(';')] + (LineTokens(more) + rest);
      assert LineTokens(l) + rest == PipelineTokens(p) + (Ampersands(n) + tail);
      AmpsStop(n, tail);
      ReadPipeline(p, Ampersands(n) + tail);
      ReadBacked(p, n, tail);
      assert tail[1..] == LineTokens(more) + rest;
      ReadLine(more, rest);
  }

  // ---- What is read is written so ---------------------------------------------------------------

  function Symbol(r: Redirect): Token {
    match r
    case From(_) => Sym('<')
    case Into(_) => Sym('>')
    case Onto(_) => Append
  }

  lemma FirstRedir(r: Redirect, more: seq<Redirect>, rest: seq<Token>)
    ensures RedirTokens([r] + more) + rest == [Symbol(r), Word(r.file)] + (RedirTokens(more) + rest)
  {
    assert ([r] + more)[1..] == more;
  }

  lemma {:induction false} RedirsWritten(done: Redirs, ts: seq<Token>) returns (rs: seq<Redirect>)
    requires ParseRedirs(done, ts).Fine?
    ensures var r := ParseRedirs(done, ts);
            r.val == done + AllMeant(rs) && ts == RedirTokens(rs) + r.rest
    decreases |ts|
  {
    hide AllMeant, RedirTokens, Meant, Symbol;
    if !StartsRedir(ts) {
      rs := [];
      NoRedirs(done, ts);
    } else {
      hide StartsRedir, ParseRedirs;
      var r := OneRedir(done, ts);
      var more := RedirsWritten(done + [Meant(r)], ts[2..]);
      rs := [r] + more;
      FirstRedir(r, more, ParseRedirs(done, ts).rest);
      MeantFirst(done, r, more);
    }
  }

  /** One round of parseredirs. */
  lemma OneRedir(done: Redirs, ts: seq<Token>) returns (r: Redirect)
    requires StartsRedir(ts) && ParseRedirs(done, ts).Fine?
    ensures |ts| > 1 && ts == [Symbol(r), Word(r.file)] + ts[2..]
    ensures ParseRedirs(done, ts) == ParseRedirs(done + [Meant(r)], ts[2..])
  {
    var file := ts[1].text;
    r := if ts[0] == Sym('<') then From(file) else if ts[0] == Append then Onto(file) else Into(file);
  }

  lemma NoRedirs(done: Redirs, ts: seq<Token>)
    ensures done + AllMeant([]) == done && RedirTokens([]) + ts == ts
  {
  }

  lemma MeantFirst(done: Redirs, r: Redirect, more: seq<Redirect>)
    ensures done + [Meant(r)] + AllMeant(more) == done + AllMeant([r] + more)
  {
  }

  lemma FirstArg(a: Arg, more: seq<Arg>, rest: seq<Token>)
    ensures ArgTokens([a] + more) + rest == [Word(a.word)] + (RedirTokens(a.redirs) + (ArgTokens(more) + rest))
    ensures ArgRedirs([a] + more) == a.redirs + ArgRedirs(more)
  {
    hide RedirTokens;
    assert ([a] + more)[1..] == more;
  }

  lemma {:induction false} ArgsWritten(words: seq<string>, done: Redirs, ts: seq<Token>) returns (args: seq<Arg>)
    requires |words| < MAXARGS && ParseArgs(words, done, ts).Fine?
    ensures var r := ParseArgs(words, done, ts);
            && |words| + |args| < MAXARGS && ts == ArgTokens(args) + r.rest
            && r.val == Wrap(Exec(words + Words(args)), done + AllMeant(ArgRedirs(args)))
    decreases |ts|
  {
    hide AllMeant, Words, Wrap, ParseRedirs, RedirTokens;
    if ts == [] || Starts(ts, "|)&;") {
      args := [];
      NoRedirs(done, ts);
      assert words + Words([]) == words && ArgTokens([]) + ts == ts;
    } else {
      hide ArgTokens, ArgRedirs;
      var rs := RedirsWritten(done, ts[1..]);
      var w := ts[0].text;
      var next := ParseRedirs(done, ts[1..]);
      var more := ArgsWritten(words + [w], next.val, next.rest);
      args := [Arg(w, rs)] + more;
      assert args[1..] == more && ts == [ts[0]] + ts[1..];
      FirstArg(Arg(w, rs), more, ParseArgs(words, done, ts).rest);
      FirstWord(words, args);
      MeantMore(done, rs, ArgRedirs(more));
    }
  }

  lemma {:induction false} CommandWritten(ts: seq<Token>) returns (c: Command)
    requires ParseExec(ts).Fine?
    ensures FitCommand(c) && ts == CommandTokens(c) + ParseExec(ts).rest && ParseExec(ts).val == CommandTree(c)
    decreases |ts|, 1
  {
    hide AllMeant, Words, Wrap, ParseRedirs, ParseArgs, RedirTokens, ArgTokens;
    if Starts(ts, "(") {
      hide ParseLine;
      var l := LineWritten(ts[1..]);
      var mid := ParseLine(ts[1..]).rest;
      var rs := RedirsWritten([], mid[1..]);
      c := Block(l, rs);
      assert [] + AllMeant(rs) == AllMeant(rs);
      assert ts == [ts[0]] + ts[1..] && mid == [mid[0]] + mid[1..];
    } else {
      var front := RedirsWritten([], ts);
      var next := ParseRedirs([], ts);
      var args := ArgsWritten([], next.val, next.rest);
      c := Simple(front, args);
      MeantMore([], front, ArgRedirs(args));
      assert [] + AllMeant(front) == AllMeant(front) && [] + Words(args) == Words(args);
      assert [] + AllMeant(front + ArgRedirs(args)) == AllMeant(front + ArgRedirs(args));
    }
  }

  lemma {:induction false} PipelineWritten(ts: seq<Token>) returns (p: Pipeline)
    requires ParsePipe(ts).Fine?
    ensures FitPipeline(p) && ts == PipelineTokens(p) + ParsePipe(ts).rest && ParsePipe(ts).val == PipelineTree(p)
    decreases |ts|, 2
  {
    hide ParseExec, CommandTokens, CommandTree, FitCommand;
    var c := CommandWritten(ts);
    var mid := ParseExec(ts).rest;
    if !Starts(mid, "|") {
      p := Single(c);
    } else {
      var q := PipelineWritten(mid[1..]);
      p := Piped(c, q);
      assert mid == [mid[0]] + mid[1..];
    }
  }

  lemma BackedMore(t: Tree, n: nat)
    ensures Backed(Back(t), n) == Backed(t, n + 1)
  {
    BackedOnce(t, n);
  }

  lemma NoAmps(t: Tree, ts: seq<Token>)
    ensures Ampersands(0) + ts == ts && Backed(t, 0) == t
  {
  }

  lemma OneAmp(m: nat, rest: seq<Token>)
    ensures Ampersands(m + 1) + rest == [Sym('&')] + (Ampersands(m) + rest)
  {
  }

  lemma {:induction false} AmpsWritten(t: Tree, ts: seq<Token>) returns (n: nat)
    ensures ts == Ampersands(n) + ParseAmps(t, ts).1 && ParseAmps(t, ts).0 == Backed(t, n)
    decreases |ts|
  {
    hide Ampersands, Backed;
    if Starts(ts, "&") {
      var m := AmpsWritten(Back(t), ts[1..]);
      n := m + 1;
      BackedMore(t, m);
      assert ts == [Sym('&')] + ts[1..];
      OneAmp(m, ParseAmps(t, ts).1);
    } else {
      n := 0;
      NoAmps(t, ts);
    }
  }

  /** parseline, one round. */
  lemma LineStep(ts: seq<Token>)
    requires ParseLine(ts).Fine?
    ensures ParsePipe(ts).Fine?
    ensures var (d, mid) := ParseAmps(ParsePipe(ts).val, ParsePipe(ts).rest);
            if !Starts(mid, ";") then ParseLine(ts) == Fine(d, mid)
            else |mid| <= |ts| && var next := ParseLine(mid[1..]);
                 next.Fine? && ParseLine(ts) == Fine(List(d, next.val), next.rest)
  {
    hide ParsePipe, ParseAmps;
  }

  lemma LastTokens(p: Pipeline, n: nat, rest: seq<Token>)
    ensures LineTokens(Last(p, n)) + rest == PipelineTokens(p) + (Ampersands(n) + rest)
  {
    hide PipelineTokens, Ampersands;
  }

  lemma ThenTokens(p: Pipeline, n: nat, more: Line, rest: seq<Token>)
    ensures LineTokens(Then(p, n, more)) + rest ==
            PipelineTokens(p) + (Ampersands(n) + ([Sym(';')] + (LineTokens(more) + rest)))
  {
    hide PipelineTokens, Ampersands;
  }

  /** Whatever the grammar reads is a line of at most nine words a command, and the tree is the one it stands for. */
  lemma {:induction false} LineWritten(ts: seq<Token>) returns (l: Line)
    requires ParseLine(ts).Fine?
    ensures FitLine(l) && ts == LineTokens(l) + ParseLine(ts).rest && ParseLine(ts).val == LineTree(l)
    decreases |ts|, 3
  {
    hide ParsePipe, PipelineTokens, PipelineTree, FitPipeline, ParseLine, ParseAmps, Ampersands, Backed, LineTokens;
    LineStep(ts);
    var p := PipelineWritten(ts);
    var r := ParsePipe(ts);
    var n := AmpsWritten(r.val, r.rest);
    var mid := ParseAmps(r.val, r.rest).1;
    if !Starts(mid, ";") {
      l := Last(p, n);
      LastTokens(p, n, mid);
    } else {
      var more := LineWritten(mid[1..]);
      l := Then(p, n, more);
      assert mid == [Sym(';')] + mid[1..];
      ThenTokens(p, n, more, ParseLine(ts).rest);
    }
  }

  /** The line l is written as these tokens and stands for the tree. */
  predicate Writes(l: Line, ts: seq<Token>, t: Tree) {
    FitLine(l) && LineTokens(l) == ts && LineTree(l) == t
  }

  /** The grammar reads exactly the lines of at most nine words a command, each as the tree it stands for. */
  lemma ReadsExactly(ts: seq<Token>, t: Tree)
    ensures ParseLine(ts) == Fine(t, []) <==> exists l :: Writes(l, ts, t)
  {
    hide ParseLine, FitLine, LineTokens, LineTree;
    if ParseLine(ts) == Fine(t, []) {
      var l := LineWritten(ts);
      assert LineTokens(l) + [] == LineTokens(l);
      assert Writes(l, ts, t);
    }
    if l :| Writes(l, ts, t) {
      ReadLine(l, []);
      assert LineTokens(l) + [] == LineTokens(l);
    }
  }

  // ---- Every tree can be written ----------------------------------------------------------------

  function Base<T>(c: Cmd<T>): (b: Cmd<T>)
    ensures !b.Redir? && (b == c || b < c)
  {
    if c.Redir? then Base(c.cmd) else c
  }

  function RedirsOf<T>(c: Cmd<T>): seq<Redirection<T>> {
    if c.Redir? then RedirsOf(c.cmd) + [c.redir] else []
  }

  lemma {:induction false} WrapBase<T>(c: Cmd<T>)
    ensures Wrap(Base(c), RedirsOf(c)) == c
  {
    if c.Redir? {
      WrapBase(c.cmd);
      assert RedirsOf(c)[..|RedirsOf(c)| - 1] == RedirsOf(c.cmd);
    }
  }

  /** The tree below its outermost Backs, and their number. */
  function Front(t: Tree): (u: Tree)
    ensures !u.Back? && (u == t || u < t)
  {
    if t.Back? then Front(t.cmd) else t
  }

  function Depth(t: Tree): nat {
    if t.Back? then Depth(t.cmd) + 1 else 0
  }

  lemma {:induction false} BackedFront(t: Tree)
    ensures Backed(Front(t), Depth(t)) == t
  {
    if t.Back? {
      BackedFront(t.cmd);
    }
  }

  function Written(rs: Redirs): (ws: seq<Redirect>)
    ensures |ws| == |rs| && AllMeant(ws) == rs
  {
    seq(|rs|, i requires 0 <= i < |rs| => if rs[i].out then Into(rs[i].file) else From(rs[i].file))
  }

  function WrittenArgs(args: seq<string>): (ws: seq<Arg>)
    ensures Words(ws) == args
  {
    seq(|args|, i requires 0 <= i < |args| => Arg(args[i], []))
  }

  /** A tree as a command, in parentheses if it is none. */
  function AsCommand(t: Tree): Command
    decreases t, if t.Exec? || t.Redir? then 0 else 3
  {
    if Base(t).Exec? then Simple(Written(RedirsOf(t)), WrittenArgs(Base(t).args))
    else Block(AsLine(Base(t)), Written(RedirsOf(t)))
  }

  function AsPipeline(t: Tree): Pipeline
    decreases t, if t.List? || t.Back? then 4 else 1
  {
    if t.Pipe? then Piped(AsCommand(t.left), AsPipeline(t.right)) else Single(AsCommand(t))
  }

  function AsLine(t: Tree): Line
    decreases t, 2
  {
    if t.List? then Then(AsPipeline(Front(t.left)), Depth(t.left), AsLine(t.right))
    else Last(AsPipeline(Front(t)), Depth(t))
  }

  /** At most nine words in each command. */
  predicate Small(t: Tree) {
    match t
    case Exec(args) => |args| < MAXARGS
    case Redir(c, _) => Small(c)
    case Pipe(l, r) => Small(l) && Small(r)
    case List(l, r) => Small(l) && Small(r)
    case Back(c) => Small(c)
  }

  lemma {:induction false} SmallBelow(t: Tree)
    requires Small(t)
    ensures Small(Base(t)) && Small(Front(t))
  {
    if t.Redir? || t.Back? {
      SmallBelow(t.cmd);
    }
  }

  lemma {:induction false} NoArgRedirs(args: seq<Arg>)
    requires forall i :: 0 <= i < |args| ==> args[i].redirs == []
    ensures ArgRedirs(args) == []
  {
    if args != [] {
      NoArgRedirs(args[1..]);
    }
  }

  lemma FewArgs(t: Tree)
    requires Small(t) && t.Exec?
    ensures |t.args| < MAXARGS
  {
  }

  lemma {:induction false} CommandIs(t: Tree)
    requires Small(t)
    ensures FitCommand(AsCommand(t)) && CommandTree(AsCommand(t)) == t
    decreases t, if t.Exec? || t.Redir? then 0 else 3
  {
    hide Wrap, AllMeant, Words, Base, RedirsOf, Small, ArgRedirs;
    WrapBase(t);
    SmallBelow(t);
    var rs := Written(RedirsOf(t));
    if Base(t).Exec? {
      FewArgs(Base(t));
      NoArgRedirs(WrittenArgs(Base(t).args));
      assert rs + [] == rs;
    } else {
      LineIs(Base(t));
    }
  }

  lemma {:induction false} PipelineIs(t: Tree)
    requires Small(t)
    ensures FitPipeline(AsPipeline(t)) && PipelineTree(AsPipeline(t)) == t
    decreases t, if t.List? || t.Back? then 4 else 1
  {
    if t.Pipe? {
      CommandIs(t.left);
      PipelineIs(t.right);
    } else {
      CommandIs(t);
    }
  }

  lemma {:induction false} LineIs(t: Tree)
    requires Small(t)
    ensures FitLine(AsLine(t)) && LineTree(AsLine(t)) == t
    decreases t, 2
  {
    if t.List? {
      SmallBelow(t.left);
      BackedFront(t.left);
      PipelineIs(Front(t.left));
      LineIs(t.right);
    } else {
      SmallBelow(t);
      BackedFront(t);
      PipelineIs(Front(t));
    }
  }
}
