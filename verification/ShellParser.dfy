/**
 The parser of sh.c: it walks the line with a position, keeps a pair of positions for each word,
 and at the end writes a NUL behind each of them.
 */
module ShellParser {
  import G = ShellGrammar
  import opened ShellGrammar

  predicate IsSpace(c: char) {
    c == ' ' || c == '\t' || c == '\r' || c == '\n' || c == '\U{B}'
  }

  predicate IsSymbol(c: char) {
    c in "<|>&;()"
  }

  predicate IsWordChar(c: char) {
    !IsSpace(c) && !IsSymbol(c) && c != '\0'
  }

  /** A line as strlen() delimits it. */
  predicate IsLine(s: string) {
    '\0' !in s
  }

  // ---- Words as positions -----------------------------------------------------------------------

  /** A word: from q up to, not including, eq. */
  datatype Span = Span(q: nat, eq: nat)

  predicate IsWord(s: string, w: Span) {
    w.q < w.eq <= |s| && (w.eq < |s| ==> !IsWordChar(s[w.eq])) && forall k :: w.q <= k < w.eq ==> IsWordChar(s[k])
  }

  function TextOf(s: string, w: Span): string {
    if w.q < w.eq <= |s| then s[w.q..w.eq] else ""
  }

  // ---- Tokens -----------------------------------------------------------------------------------

  function Skip(s: string, i: nat): (j: nat)
    requires i <= |s|
    ensures i <= j <= |s| && (j < |s| ==> !IsSpace(s[j]))
    decreases |s| - i
  {
    if i < |s| && IsSpace(s[i]) then Skip(s, i + 1) else i
  }

  function WordEnd(s: string, i: nat): (j: nat)
    requires i <= |s|
    ensures i <= j <= |s| && (j < |s| ==> !IsWordChar(s[j])) && forall k :: i <= k < j ==> IsWordChar(s[k])
    decreases |s| - i
  {
    if i < |s| && IsWordChar(s[i]) then WordEnd(s, i + 1) else i
  }

  function TokenEnd(s: string, j: nat): (e: nat)
    requires j < |s| && !IsSpace(s[j]) && s[j] != '\0'
    ensures j < e <= |s|
  {
    if s[j] == '>' && j + 1 < |s| && s[j + 1] == '>' then j + 2
    else if IsSymbol(s[j]) then j + 1
    else WordEnd(s, j)
  }

  function TokenAt(s: string, j: nat): Token
    requires j < |s| && !IsSpace(s[j]) && s[j] != '\0'
  {
    if s[j] == '>' && j + 1 < |s| && s[j + 1] == '>' then Append
    else if IsSymbol(s[j]) then Sym(s[j])
    else Word(s[j..WordEnd(s, j)])
  }

  /** The tokens from position i on. */
  function Lex(s: string, i: nat): seq<Token>
    requires i <= |s| && IsLine(s)
    decreases |s| - i
  {
    var j := Skip(s, i);
    if j == |s| then [] else [TokenAt(s, j)] + Lex(s, TokenEnd(s, j))
  }

  lemma {:induction false} SkipTwice(s: string, i: nat)
    requires i <= |s|
    ensures Skip(s, Skip(s, i)) == Skip(s, i)
    decreases |s| - i
  {
    if i < |s| && IsSpace(s[i]) {
      SkipTwice(s, i + 1);
    }
  }

  lemma LexSkips(s: string, i: nat)
    requires i <= |s| && IsLine(s)
    ensures Lex(s, Skip(s, i)) == Lex(s, i)
  {
    SkipTwice(s, i);
  }

  /** What gettoken() returns for a token. */
  function Code(t: Token): char {
    match t
    case Word(_) => 'a'
    case Sym(c) => c
    case Append => '+'
  }

  method SkipSpace(s: string, i: nat) returns (j: nat)
    requires i <= |s|
    ensures j == Skip(s, i)
  {
    j := i;
    while j < |s| && IsSpace(s[j])
      invariant i <= j <= |s| && Skip(s, j) == Skip(s, i)
    {
      j := j + 1;
    }
  }

  method ScanWord(s: string, i: nat) returns (j: nat)
    requires i <= |s| && IsLine(s)
    ensures j == WordEnd(s, i)
  {
    j := i;
    while j < |s| && !IsSpace(s[j]) && !IsSymbol(s[j])
      invariant i <= j <= |s| && WordEnd(s, j) == WordEnd(s, i)
    {
      assert s[j] in s;
      j := j + 1;
    }
  }

  lemma FirstToken(s: string, ps: nat)
    requires ps <= |s| && IsLine(s)
    ensures var j := Skip(s, ps);
            && (j == |s| ==> Lex(s, ps) == [])
            && (j < |s| ==>
                  && s[j] != '\0' && |Lex(s, ps)| > 0 && Lex(s, ps)[0] == TokenAt(s, j)
                  && Lex(s, ps)[1..] == Lex(s, TokenEnd(s, j))
                  && (!IsSymbol(s[j]) ==>
                        var w := Span(j, WordEnd(s, j)); IsWord(s, w) && TokenAt(s, j) == Word(TextOf(s, w))))
  {
    var j := Skip(s, ps);
    if j < |s| {
      assert s[j] in s;
    }
  }

  /** gettoken(): the token at the position, where it begins and ends, and the position behind it. */
  method GetToken(s: string, ps: nat) returns (ret: char, q: nat, eq: nat, after: nat)
    requires ps <= |s| && IsLine(s)
    ensures ps <= q <= eq <= after <= |s|
    ensures Lex(s, ps) == [] <==> ret == '\0'
    ensures ret != '\0' ==>
              && ps < after && |Lex(s, ps)| > 0 && Lex(s, ps)[1..] == Lex(s, after) && ret == Code(Lex(s, ps)[0])
              && (ret == 'a' <==> Lex(s, ps)[0].Word?)
              && (ret == 'a' ==> IsWord(s, Span(q, eq)) && Lex(s, ps)[0] == Word(TextOf(s, Span(q, eq))))
  {
    hide Lex, Skip, WordEnd, IsWord, TextOf;
    var j := SkipSpace(s, ps);
    q := j;
    FirstToken(s, ps);
    if j == |s| {
      ret := '\0';
    } else {
      ret := s[j];
      if ret == '|' || ret == '(' || ret == ')' || ret == ';' || ret == '&' || ret == '<' {
        j := j + 1;
      } else if ret == '>' {
        j := j + 1;
        if j < |s| && s[j] == '>' {
          ret := '+';
          j := j + 1;
        }
      } else {
        ret := 'a';
        j := ScanWord(s, j);
      }
    }
    eq := j;
    after := SkipSpace(s, j);
    LexSkips(s, eq);
  }

  /** peek(): whether the next token begins with one of the characters. */
  method Peek(s: string, ps: nat, toks: string) returns (b: bool, after: nat)
    requires ps <= |s| && IsLine(s) && forall c :: c in toks ==> IsSymbol(c)
    ensures ps <= after <= |s| && after == Skip(s, ps) && Lex(s, after) == Lex(s, ps)
    ensures b <==> Starts(Lex(s, ps), toks) || (|Lex(s, ps)| > 0 && Lex(s, ps)[0] == Append && '>' in toks)
  {
    after := SkipSpace(s, ps);
    LexSkips(s, ps);
    b := after < |s| && s[after] in toks;
    if after < |s| {
      assert s[after] in s;
    }
  }

  // ---- Trees of words ---------------------------------------------------------------------------

  function Texts(s: string, ws: seq<Span>): (r: seq<string>)
    ensures |r| == |ws|
  {
    seq(|ws|, i requires 0 <= i < |ws| => TextOf(s, ws[i]))
  }

  function RedirText(s: string, r: Redirection<Span>): Redirection<string> {
    Redirection(r.out, TextOf(s, r.file))
  }

  function RedirTexts(s: string, rs: seq<Redirection<Span>>): (r: Redirs)
    ensures |r| == |rs|
  {
    seq(|rs|, i requires 0 <= i < |rs| => RedirText(s, rs[i]))
  }

  /** The tree with each word's text in place of its positions. */
  function Text(s: string, c: Cmd<Span>): Tree {
    match c
    case Exec(args) => Exec(Texts(s, args))
    case Redir(d, r) => Redir(Text(s, d), RedirText(s, r))
    case Pipe(l, r) => Pipe(Text(s, l), Text(s, r))
    case List(l, r) => List(Text(s, l), Text(s, r))
    case Back(d) => Back(Text(s, d))
  }

  predicate WordsOk(s: string, c: Cmd<Span>) {
    match c
    case Exec(args) => forall i :: 0 <= i < |args| ==> IsWord(s, args[i])
    case Redir(d, r) => WordsOk(s, d) && IsWord(s, r.file)
    case Pipe(l, r) => WordsOk(s, l) && WordsOk(s, r)
    case List(l, r) => WordsOk(s, l) && WordsOk(s, r)
    case Back(d) => WordsOk(s, d)
  }

  predicate FilesOk(s: string, rs: seq<Redirection<Span>>) {
    forall i :: 0 <= i < |rs| ==> IsWord(s, rs[i].file)
  }

  lemma {:induction false} WrapText(s: string, c: Cmd<Span>, rs: seq<Redirection<Span>>)
    requires WordsOk(s, c) && FilesOk(s, rs)
    ensures Text(s, Wrap(c, rs)) == Wrap(Text(s, c), RedirTexts(s, rs)) && WordsOk(s, Wrap(c, rs))
    decreases |rs|
  {
    if rs != [] {
      WrapText(s, c, rs[..|rs| - 1]);
      assert RedirTexts(s, rs)[..|rs| - 1] == RedirTexts(s, rs[..|rs| - 1]);
    }
  }

  // ---- The parser -------------------------------------------------------------------------------

  datatype Result<T> = Ok(value: T) | Fail(msg: string)

  lemma OneMoreRedir(s: string, rs: seq<Redirection<Span>>, r: Redirection<Span>)
    requires FilesOk(s, rs) && IsWord(s, r.file)
    ensures RedirTexts(s, rs + [r]) == RedirTexts(s, rs) + [RedirText(s, r)] && FilesOk(s, rs + [r])
  {
  }

  /** parseredirs(), which adds to the redirections read so far. */
  method ParseRedirs(s: string, ps: nat, given: seq<Redirection<Span>>)
    returns (r: Result<seq<Redirection<Span>>>, after: nat)
    requires ps <= |s| && IsLine(s) && FilesOk(s, given)
    ensures ps <= after <= |s|
    ensures match r
            case Ok(rs) =>
              && FilesOk(s, rs)
              && G.ParseRedirs(RedirTexts(s, given), Lex(s, ps)) == Fine(RedirTexts(s, rs), Lex(s, after))
            case Fail(_) => G.ParseRedirs(RedirTexts(s, given), Lex(s, ps)) == Panic
  {
    hide Lex, IsWord, TextOf, RedirTexts, FilesOk;
    var rs := given;
    var more;
    more, after := Peek(s, ps, "<>");
    while more
      invariant ps <= after <= |s| && FilesOk(s, rs) && (more <==> StartsRedir(Lex(s, after)))
      invariant G.ParseRedirs(RedirTexts(s, given), Lex(s, ps)) == G.ParseRedirs(RedirTexts(s, rs), Lex(s, after))
      decreases |s| - after
    {
      ghost var ts := Lex(s, after);
      var tok, ret, q, eq, b, e;
      tok, q, eq, b := GetToken(s, after);
      ret, q, eq, e := GetToken(s, b);
      if ret != 'a' {
        return Fail("missing file for redirection"), e;
      }
      assert ts[2..] == ts[1..][1..];
      var next := Redirection(tok != '<', Span(q, eq));
      OneMoreRedir(s, rs, next);
      rs := rs + [next];
      more, after := Peek(s, e, "<>");
    }
    return Ok(rs), after;
  }

  lemma OneMoreArg(s: string, args: seq<Span>, w: Span)
    requires IsWord(s, w) && forall i :: 0 <= i < |args| ==> IsWord(s, args[i])
    ensures Texts(s, args + [w]) == Texts(s, args) + [TextOf(s, w)]
    ensures forall i :: 0 <= i < |args + [w]| ==> IsWord(s, (args + [w])[i])
  {
  }

  /** What a parser has returned agrees with what the grammar reads. */
  predicate Agrees(s: string, r: Result<Cmd<Span>>, after: nat, p: Parsed<Tree>)
    requires after <= |s| && IsLine(s)
  {
    match r
    case Ok(c) => WordsOk(s, c) && p == Fine(Text(s, c), Lex(s, after))
    case Fail(_) => p == Panic
  }

  /** parseexec() behind its test for a block; argv and the redirections grow in one loop. */
  method ParseSimple(s: string, ps: nat) returns (r: Result<Cmd<Span>>, after: nat)
    requires ps <= |s| && IsLine(s) && !Starts(Lex(s, ps), "(")
    ensures ps <= after <= |s| && Agrees(s, r, after, G.ParseExec(Lex(s, ps)))
  {
    hide Lex, IsWord, TextOf, RedirTexts, FilesOk, Texts;
    var args: seq<Span> := [];
    NoRedirs(s);
    var got, stop;
    got, after := ParseRedirs(s, ps, []);
    if got.Fail? {
      return Fail(got.msg), after;
    }
    stop, after := Peek(s, after, "|)&;");
    while !stop
      invariant ps <= after <= |s| && got.Ok? && FilesOk(s, got.value) && |args| < MAXARGS
      invariant forall i :: 0 <= i < |args| ==> IsWord(s, args[i])
      invariant stop <==> Starts(Lex(s, after), "|)&;")
      invariant G.ParseExec(Lex(s, ps)) == G.ParseArgs(Texts(s, args), RedirTexts(s, got.value), Lex(s, after))
      decreases |s| - after
    {
      var tok, q, eq, b := GetToken(s, after);
      if tok == '\0' {
        break;
      }
      if tok != 'a' {
        return Fail("syntax"), b;
      }
      OneMoreArg(s, args, Span(q, eq));
      args := args + [Span(q, eq)];
      if |args| >= MAXARGS {
        return Fail("too many args"), b;
      }
      got, b := ParseRedirs(s, b, got.value);
      if got.Fail? {
        return Fail(got.msg), b;
      }
      stop, after := Peek(s, b, "|)&;");
    }
    WrapText(s, Exec(args), got.value);
    return Ok(Wrap(Exec(args), got.value)), after;
  }

  lemma NoRedirs(s: string)
    ensures FilesOk(s, []) && RedirTexts(s, []) == [] && Texts(s, []) == []
  {
  }

  method ParseExec(s: string, ps: nat) returns (r: Result<Cmd<Span>>, after: nat)
    requires ps <= |s| && IsLine(s)
    ensures ps <= after <= |s| && Agrees(s, r, after, G.ParseExec(Lex(s, ps)))
    decreases |s| - ps, 1
  {
    hide Lex;
    var block;
    block, after := Peek(s, ps, "(");
    if block {
      r, after := ParseBlock(s, after);
    } else {
      r, after := ParseSimple(s, after);
    }
  }

  method ParseBlock(s: string, ps: nat) returns (r: Result<Cmd<Span>>, after: nat)
    requires ps <= |s| && IsLine(s) && Starts(Lex(s, ps), "(")
    ensures ps <= after <= |s| && Agrees(s, r, after, G.ParseBlock(Lex(s, ps)))
    decreases |s| - ps, 0
  {
    hide Lex, RedirTexts, FilesOk;
    NoRedirs(s);
    var tok, q, eq, close;
    tok, q, eq, after := GetToken(s, ps);
    r, after := ParseLine(s, after);
    if r.Fail? {
      return;
    }
    close, after := Peek(s, after, ")");
    if !close {
      return Fail("syntax - missing )"), after;
    }
    tok, q, eq, after := GetToken(s, after);
    var got;
    got, after := ParseRedirs(s, after, []);
    if got.Fail? {
      return Fail(got.msg), after;
    }
    WrapText(s, r.value, got.value);
    return Ok(Wrap(r.value, got.value)), after;
  }

  method ParsePipe(s: string, ps: nat) returns (r: Result<Cmd<Span>>, after: nat)
    requires ps <= |s| && IsLine(s)
    ensures ps <= after <= |s| && Agrees(s, r, after, G.ParsePipe(Lex(s, ps)))
    decreases |s| - ps, 2
  {
    hide Lex;
    r, after := ParseExec(s, ps);
    if r.Fail? {
      return;
    }
    var pipe;
    pipe, after := Peek(s, after, "|");
    if pipe {
      var tok, q, eq, right;
      tok, q, eq, after := GetToken(s, after);
      right, after := ParsePipe(s, after);
      r := if right.Fail? then right else Ok(Pipe(r.value, right.value));
    }
  }

  method ParseLine(s: string, ps: nat) returns (r: Result<Cmd<Span>>, after: nat)
    requires ps <= |s| && IsLine(s)
    ensures ps <= after <= |s| && Agrees(s, r, after, G.ParseLine(Lex(s, ps)))
    decreases |s| - ps, 3
  {
    hide Lex;
    r, after := ParsePipe(s, ps);
    if r.Fail? {
      return;
    }
    ghost var p := G.ParsePipe(Lex(s, ps));
    var amp, semi;
    amp, after := Peek(s, after, "&");
    while amp
      invariant ps <= after <= |s| && r.Ok? && WordsOk(s, r.value) && (amp <==> Starts(Lex(s, after), "&"))
      invariant ParseAmps(Text(s, r.value), Lex(s, after)) == ParseAmps(p.val, p.rest)
      decreases |s| - after
    {
      var tok, q, eq, b := GetToken(s, after);
      r := Ok(Back(r.value));
      amp, after := Peek(s, b, "&");
    }
    semi, after := Peek(s, after, ";");
    if semi {
      var tok, q, eq, rest;
      tok, q, eq, after := GetToken(s, after);
      rest, after := ParseLine(s, after);
      r := if rest.Fail? then rest else Ok(List(r.value, rest.value));
    }
  }

  // ---- nulterminate() ---------------------------------------------------------------------------

  /** Where the words of a tree end. */
  function Ends(c: Cmd<Span>): set<nat> {
    match c
    case Exec(args) => set i | 0 <= i < |args| :: args[i].eq
    case Redir(d, r) => Ends(d) + {r.file.eq}
    case Pipe(l, r) => Ends(l) + Ends(r)
    case List(l, r) => Ends(l) + Ends(r)
    case Back(d) => Ends(d)
  }

  /** A NUL behind every word, and nothing else changed. */
  method NulTerminate(buf: array<char>, c: Cmd<Span>)
    requires forall e :: e in Ends(c) ==> e < buf.Length
    modifies buf
    ensures forall k :: 0 <= k < buf.Length ==> buf[k] == if k in Ends(c) then '\0' else old(buf[k])
    decreases c
  {
    match c {
      case Exec(args) =>
        var i := 0;
        while i < |args|
          invariant 0 <= i <= |args|
          invariant forall j :: 0 <= j < i ==> args[j].eq < buf.Length && buf[args[j].eq] == '\0'
          invariant forall k :: 0 <= k < buf.Length && k !in Ends(c) ==> buf[k] == old(buf[k])
        {
          assert args[i].eq in Ends(c);
          buf[args[i].eq] := '\0';
          i := i + 1;
        }
      case Redir(d, r) =>
        assert forall e :: e in Ends(d) + {r.file.eq} ==> e in Ends(c);
        assert r.file.eq in Ends(c);
        NulTerminate(buf, d);
        buf[r.file.eq] := '\0';
      case Pipe(l, r) =>
        assert forall e :: e in Ends(l) + Ends(r) ==> e in Ends(c);
        NulTerminate(buf, l);
        NulTerminate(buf, r);
      case List(l, r) =>
        assert forall e :: e in Ends(l) + Ends(r) ==> e in Ends(c);
        NulTerminate(buf, l);
        NulTerminate(buf, r);
      case Back(d) =>
        assert forall e :: e in Ends(d) ==> e in Ends(c);
        NulTerminate(buf, d);
    }
  }

  /** The C string at position q. */
  function CString(b: seq<char>, q: nat): string
    requires q <= |b|
    decreases |b| - q
  {
    if q == |b| || b[q] == '\0' then "" else [b[q]] + CString(b, q + 1)
  }

  /** The tree with each word replaced by the C string that its pointer now points to. */
  function AsStrings(b: seq<char>, c: Cmd<Span>): Tree {
    match c
    case Exec(args) => Exec(seq(|args|, i requires 0 <= i < |args| => Pointed(b, args[i])))
    case Redir(d, r) => Redir(AsStrings(b, d), Redirection(r.out, Pointed(b, r.file)))
    case Pipe(l, r) => Pipe(AsStrings(b, l), AsStrings(b, r))
    case List(l, r) => List(AsStrings(b, l), AsStrings(b, r))
    case Back(d) => Back(AsStrings(b, d))
  }

  function Pointed(b: seq<char>, w: Span): string {
    if w.q <= |b| then CString(b, w.q) else ""
  }

  /** b is line s after some characters that end words became NULs. */
  predicate CutFrom(s: string, b: seq<char>) {
    |s| <= |b| && forall k :: 0 <= k < |s| && IsWordChar(s[k]) ==> b[k] == s[k]
  }

  lemma {:induction false} WordCut(s: string, b: seq<char>, q: nat, eq: nat)
    requires CutFrom(s, b) && q <= eq <= |s| && eq < |b| && b[eq] == '\0'
    requires forall k :: q <= k < eq ==> IsWordChar(s[k])
    ensures CString(b, q) == s[q..eq]
    decreases eq - q
  {
    if q < eq {
      WordCut(s, b, q + 1, eq);
      assert s[q..eq] == [s[q]] + s[q + 1..eq];
    }
  }

  lemma {:induction false} TreeCut(s: string, b: seq<char>, c: Cmd<Span>)
    requires CutFrom(s, b) && WordsOk(s, c) && forall e :: e in Ends(c) ==> e < |b| && b[e] == '\0'
    ensures AsStrings(b, c) == Text(s, c)
  {
    match c {
      case Exec(args) =>
        forall i | 0 <= i < |args| ensures Pointed(b, args[i]) == TextOf(s, args[i]) {
          assert args[i].eq in Ends(c) && IsWord(s, args[i]);
          WordCut(s, b, args[i].q, args[i].eq);
        }
        assert AsStrings(b, c).args == Texts(s, args);
      case Redir(d, r) =>
        assert forall e :: e in Ends(d) ==> e in Ends(c);
        TreeCut(s, b, d);
        assert r.file.eq in Ends(c);
        WordCut(s, b, r.file.q, r.file.eq);
      case Pipe(l, r) =>
        assert forall e :: e in Ends(l) + Ends(r) ==> e in Ends(c);
        TreeCut(s, b, l);
        TreeCut(s, b, r);
      case List(l, r) =>
        assert forall e :: e in Ends(l) + Ends(r) ==> e in Ends(c);
        TreeCut(s, b, l);
        TreeCut(s, b, r);
      case Back(d) =>
        assert forall e :: e in Ends(d) ==> e in Ends(c);
        TreeCut(s, b, d);
    }
  }

  /** A word ends at a character that belongs to no word, or at the end of the line. */
  lemma {:induction false} EndsOutside(s: string, c: Cmd<Span>, e: nat)
    requires WordsOk(s, c) && e in Ends(c)
    ensures e <= |s| && (e < |s| ==> !IsWordChar(s[e]))
  {
    match c {
      case Exec(args) =>
        var i :| 0 <= i < |args| && args[i].eq == e;
        assert IsWord(s, args[i]);
      case Redir(d, r) =>
        if e in Ends(d) {
          EndsOutside(s, d, e);
        }
      case Pipe(l, r) =>
        if e in Ends(l) {
          EndsOutside(s, l, e);
        } else {
          EndsOutside(s, r, e);
        }
      case List(l, r) =>
        if e in Ends(l) {
          EndsOutside(s, l, e);
        } else {
          EndsOutside(s, r, e);
        }
      case Back(d) =>
        EndsOutside(s, d, e);
    }
  }

  /**
   parsecmd(): it accepts exactly the lines that are some command line typed with some white space,
   and the tree it returns, with the strings that it points to in the line it has cut up, is the one
   that command line stands for.
   */
  method ParseCmd(buf: array<char>) returns (r: Result<Cmd<Span>>, ghost line: string)
    requires '\0' in buf[..]
    modifies buf
    ensures IsLine(line) && line + ['\0'] <= old(buf[..])
    ensures r.Ok? ==> G.ParseLine(Lex(line, 0)) == Fine(AsStrings(buf[..], r.value), [])
    ensures r.Ok? ==> exists l, gaps :: Types(l, gaps, line, AsStrings(buf[..], r.value))
    ensures r.Fail? ==> (G.ParseLine(Lex(line, 0)) == Panic || G.ParseLine(Lex(line, 0)).rest != [])
    ensures r.Fail? ==> buf[..] == old(buf[..]) && forall l, gaps, t :: !Types(l, gaps, line, t)
  {
    hide Lex, Types, G.ParseLine;
    ghost var b0 := buf[..];
    var n := 0;
    while buf[n] != '\0'
      invariant 0 <= n < buf.Length && '\0' !in b0[..n] && '\0' in b0[n..]
      decreases buf.Length - n
    {
      assert b0[n..] == [b0[n]] + b0[n + 1..];
      n := n + 1;
    }
    var s := buf[..n];
    line := s;
    var after, b;
    r, after := ParseLine(s, 0);
    if r.Fail? {
      Rejects(s);
      return;
    }
    b, after := Peek(s, after, "");
    EndOfLine(s, after);
    if after != n {
      Rejects(s);
      return Fail("syntax"), line;
    }
    forall e | e in Ends(r.value) ensures e <= |s| && (e < |s| ==> !IsWordChar(s[e])) {
      EndsOutside(s, r.value, e);
    }
    NulTerminate(buf, r.value);
    TreeCut(s, buf[..], r.value);
    AcceptsExactly(s, AsStrings(buf[..], r.value));
  }

  lemma EndOfLine(s: string, i: nat)
    requires i <= |s| && IsLine(s) && i == Skip(s, i)
    ensures Lex(s, i) == [] <==> i == |s|
  {
  }

  // ---- Lines as they are typed ------------------------------------------------------------------

  /** The characters of a token. */
  function Chars(t: Token): string {
    match t
    case Word(w) => w
    case Sym(c) => [c]
    case Append => ">>"
  }

  predicate GoodWord(w: string) {
    w != "" && forall k :: 0 <= k < |w| ==> IsWordChar(w[k])
  }

  /** A token that gettoken() can return. */
  predicate Typable(t: Token) {
    match t
    case Word(w) => GoodWord(w)
    case Sym(c) => IsSymbol(c)
    case Append => true
  }

  predicate AllTypable(ts: seq<Token>) {
    forall i :: 0 <= i < |ts| ==> Typable(ts[i])
  }

  /** Tokens that would run together with nothing between them. */
  predicate RunTogether(t: Token, u: Token) {
    (t.Word? && u.Word?) || (t == Sym('>') && (u == Sym('>') || u == Append))
  }

  predicate IsGap(g: string) {
    forall k :: 0 <= k < |g| ==> IsSpace(g[k])
  }

  /** White space to put in front of each token and behind the last, some of it where it is needed. */
  predicate Gaps(ts: seq<Token>, gaps: seq<string>) {
    && |gaps| == |ts| + 1 && (forall i :: 0 <= i < |gaps| ==> IsGap(gaps[i]))
    && forall i :: 0 < i < |ts| && RunTogether(ts[i - 1], ts[i]) ==> gaps[i] != ""
  }

  /** The tokens with that white space. */
  function Typed(ts: seq<Token>, gaps: seq<string>): string
    requires |gaps| == |ts| + 1
  {
    gaps[0] + (if ts == [] then "" else Chars(ts[0]) + Typed(ts[1..], gaps[1..]))
  }

  lemma IsLineJoin(a: string, b: string)
    requires IsLine(a) && IsLine(b)
    ensures IsLine(a + b)
  {
    assert forall k :: 0 <= k < |a + b| ==> (a + b)[k] == if k < |a| then a[k] else b[k - |a|];
  }

  lemma {:induction false} TypedIsLine(ts: seq<Token>, gaps: seq<string>)
    requires AllTypable(ts) && Gaps(ts, gaps)
    ensures IsLine(Typed(ts, gaps))
    decreases |ts|
  {
    assert IsGap(gaps[0]);
    if ts != [] {
      GapsBehind(ts, gaps);
      TypedIsLine(ts[1..], gaps[1..]);
      assert Typable(ts[0]);
      IsLineJoin(Chars(ts[0]), Typed(ts[1..], gaps[1..]));
      IsLineJoin(gaps[0], Chars(ts[0]) + Typed(ts[1..], gaps[1..]));
    }
  }

  lemma GapsBehind(ts: seq<Token>, gaps: seq<string>)
    requires Gaps(ts, gaps) && ts != []
    ensures Gaps(ts[1..], gaps[1..])
  {
    var us, hs := ts[1..], gaps[1..];
    forall i | 0 < i < |us| && RunTogether(us[i - 1], us[i]) ensures hs[i] != "" {
      assert us[i - 1] == ts[i] && us[i] == ts[i + 1];
    }
  }

  /** Lexing looks only forward: a prefix changes nothing. */
  lemma {:induction false} SkipShift(p: string, s: string, i: nat)
    requires i <= |s|
    ensures Skip(p + s, |p| + i) == |p| + Skip(s, i)
    decreases |s| - i
  {
    if i < |s| && IsSpace(s[i]) {
      SkipShift(p, s, i + 1);
    }
  }

  lemma {:induction false} WordEndShift(p: string, s: string, i: nat)
    requires i <= |s|
    ensures WordEnd(p + s, |p| + i) == |p| + WordEnd(s, i)
    decreases |s| - i
  {
    if i < |s| && IsWordChar(s[i]) {
      WordEndShift(p, s, i + 1);
    }
  }

  lemma TokenShift(p: string, s: string, j: nat)
    requires j < |s| && !IsSpace(s[j]) && s[j] != '\0'
    ensures |p| + j < |p + s| && (p + s)[|p| + j] == s[j]
    ensures TokenEnd(p + s, |p| + j) == |p| + TokenEnd(s, j) && TokenAt(p + s, |p| + j) == TokenAt(s, j)
  {
    hide WordEnd;
    assert j + 1 < |s| ==> (p + s)[|p| + j + 1] == s[j + 1];
    WordEndShift(p, s, j);
    assert (p + s)[|p| + j..|p| + WordEnd(s, j)] == s[j..WordEnd(s, j)];
  }

  lemma {:induction false} LexShift(p: string, s: string, i: nat)
    requires i <= |s| && IsLine(p + s) && IsLine(s)
    ensures Lex(p + s, |p| + i) == Lex(s, i)
    decreases |s| - i
  {
    hide TokenAt, TokenEnd, WordEnd, Skip;
    SkipShift(p, s, i);
    var j := Skip(s, i);
    if j < |s| {
      assert s[j] in s;
      TokenShift(p, s, j);
      LexShift(p, s, TokenEnd(s, j));
    }
  }

  lemma {:induction false} WordStops(w: string, rest: string, i: nat)
    requires i <= |w| && (forall k :: 0 <= k < |w| ==> IsWordChar(w[k])) && (rest != "" ==> !IsWordChar(rest[0]))
    ensures WordEnd(w + rest, i) == |w|
    decreases |w| - i
  {
    if i < |w| {
      assert (w + rest)[i] == w[i];
      WordStops(w, rest, i + 1);
    } else if rest != "" {
      assert (w + rest)[i] == rest[0];
    }
  }

  /** What follows does not belong to the token. */
  predicate Apart(t: Token, rest: string) {
    rest != "" ==> !(t.Word? && IsWordChar(rest[0])) && !(t == Sym('>') && rest[0] == '>')
  }

  lemma FirstTyped(t: Token, rest: string)
    requires Typable(t) && Apart(t, rest)
    ensures var s := Chars(t) + rest;
            |s| > 0 && !IsSpace(s[0]) && s[0] != '\0' && TokenEnd(s, 0) == |Chars(t)| && TokenAt(s, 0) == t
  {
    var s := Chars(t) + rest;
    assert s[0] == Chars(t)[0];
    match t {
      case Word(w) =>
        hide WordEnd;
        WordStops(w, rest, 0);
        assert s[0..|w|] == w;
      case Sym(c) => assert rest != "" ==> s[1] == rest[0];
      case Append => assert s[1] == '>';
    }
  }

  lemma {:induction false} SkipGap(g: string, s: string, i: nat)
    requires IsGap(g) && i <= |g| && (s != "" ==> !IsSpace(s[0]))
    ensures Skip(g + s, i) == |g|
    decreases |g| - i
  {
    if i < |g| {
      assert (g + s)[i] == g[i];
      SkipGap(g, s, i + 1);
    } else if s != "" {
      assert (g + s)[i] == s[0];
    }
  }

  /** White space, a token, and the rest of the line. */
  lemma LexTyped(g: string, t: Token, rest: string)
    requires IsGap(g) && Typable(t) && Apart(t, rest) && IsLine(rest) && IsLine(g + (Chars(t) + rest))
    ensures Lex(g + (Chars(t) + rest), 0) == [t] + Lex(rest, 0)
  {
    hide Chars, TokenAt, TokenEnd;
    var s := Chars(t) + rest;
    FirstTyped(t, rest);
    SkipGap(g, s, 0);
    TokenShift(g, s, 0);
    assert g + s == (g + Chars(t)) + rest;
    LexShift(g + Chars(t), rest, 0);
  }

  lemma FirstChar(ts: seq<Token>, gaps: seq<string>)
    requires ts != [] && |gaps| == |ts| + 1 && Typable(ts[0])
    ensures gaps[0] == "" ==> Typed(ts, gaps) != "" && Typed(ts, gaps)[0] == Chars(ts[0])[0]
  {
    if gaps[0] == "" {
      assert Typed(ts, gaps) == Chars(ts[0]) + Typed(ts[1..], gaps[1..]);
    }
  }

  lemma NextFirst(ts: seq<Token>, gaps: seq<string>)
    requires ts != [] && AllTypable(ts) && Gaps(ts, gaps)
    ensures Apart(ts[0], Typed(ts[1..], gaps[1..]))
  {
    var rest := Typed(ts[1..], gaps[1..]);
    assert IsGap(gaps[1]);
    if gaps[1] != "" {
      assert rest[0] == gaps[1][0];
    } else if |ts| > 1 {
      assert !RunTogether(ts[0], ts[1]) && Typable(ts[1]) && ts[1..][0] == ts[1];
      FirstChar(ts[1..], gaps[1..]);
    }
  }

  lemma LexGap(g: string)
    requires IsGap(g)
    ensures IsLine(g) && Lex(g, 0) == []
  {
    SkipGap(g, "", 0);
    assert g + "" == g;
  }

  /** Tokens typed with any white space that keeps them apart are read back as themselves. */
  lemma {:induction false} LexReads(ts: seq<Token>, gaps: seq<string>)
    requires AllTypable(ts) && Gaps(ts, gaps)
    ensures IsLine(Typed(ts, gaps)) && Lex(Typed(ts, gaps), 0) == ts
    decreases |ts|
  {
    hide Lex, Typed, Apart;
    TypedIsLine(ts, gaps);
    assert IsGap(gaps[0]);
    if ts == [] {
      LexGap(gaps[0]);
      OnlyGap(gaps[0]);
      assert gaps == [gaps[0]];
    } else {
      assert ts == [ts[0]] + ts[1..] && gaps == [gaps[0]] + gaps[1..];
      TypedInFront(ts[0], gaps[0], ts[1..], gaps[1..]);
      var rest := Typed(ts[1..], gaps[1..]);
      GapsBehind(ts, gaps);
      TypedIsLine(ts[1..], gaps[1..]);
      LexReads(ts[1..], gaps[1..]);
      assert Typable(ts[0]) && IsGap(gaps[0]);
      NextFirst(ts, gaps);
      LexTyped(gaps[0], ts[0], rest);
    }
  }

  lemma {:induction false} Skipped(s: string, i: nat)
    requires i <= |s|
    ensures forall k :: i <= k < Skip(s, i) ==> IsSpace(s[k])
    decreases |s| - i
  {
    if i < |s| && IsSpace(s[i]) {
      Skipped(s, i + 1);
    }
  }

  lemma TokenIs(s: string, j: nat)
    requires j < |s| && !IsSpace(s[j]) && s[j] != '\0' && IsLine(s)
    ensures Typable(TokenAt(s, j)) && Chars(TokenAt(s, j)) == s[j..TokenEnd(s, j)]
    ensures Apart(TokenAt(s, j), s[TokenEnd(s, j)..])
  {
    var e := TokenEnd(s, j);
    if IsSymbol(s[j]) && TokenAt(s, j) == Append {
      assert s[j..e] == ">>";
    }
  }

  /** And every line is its tokens, typed so. */
  lemma {:induction false} LexWritten(s: string, i: nat) returns (gaps: seq<string>)
    requires i <= |s| && IsLine(s)
    ensures AllTypable(Lex(s, i)) && Gaps(Lex(s, i), gaps) && s[i..] == Typed(Lex(s, i), gaps)
    decreases |s| - i
  {
    hide TokenAt, TokenEnd, Chars, Typed, Gaps, AllTypable, Apart;
    var j := Skip(s, i);
    Skipped(s, i);
    if j == |s| {
      gaps := [s[i..]];
      OnlyGap(s[i..]);
    } else {
      assert s[j] in s;
      TokenIs(s, j);
      var t, e := TokenAt(s, j), TokenEnd(s, j);
      var ts := Lex(s, e);
      var hs := LexWritten(s, e);
      gaps := [s[i..j]] + hs;
      assert Lex(s, i) == [t] + ts && ([t] + ts)[1..] == ts && gaps[1..] == hs;
      assert s[i..] == s[i..j] + (s[j..e] + s[e..]);
      GapsInFront(t, s[i..j], ts, hs);
      TypedInFront(t, s[i..j], ts, hs);
    }
  }

  lemma OnlyGap(g: string)
    requires IsGap(g)
    ensures AllTypable([]) && Gaps([], [g]) && Typed([], [g]) == g
  {
  }

  lemma TypedInFront(t: Token, g: string, ts: seq<Token>, hs: seq<string>)
    requires |hs| == |ts| + 1
    ensures Typed([t] + ts, [g] + hs) == g + (Chars(t) + Typed(ts, hs))
  {
    assert ([t] + ts)[1..] == ts && ([g] + hs)[1..] == hs;
  }

  lemma GapsInFront(t: Token, g: string, ts: seq<Token>, hs: seq<string>)
    requires IsGap(g) && Typable(t) && AllTypable(ts) && Gaps(ts, hs) && Apart(t, Typed(ts, hs))
    ensures AllTypable([t] + ts) && Gaps([t] + ts, [g] + hs)
  {
    var us, gs := [t] + ts, [g] + hs;
    forall i | 0 < i < |us| && RunTogether(us[i - 1], us[i]) ensures gs[i] != "" {
      if i == 1 {
        assert us[0] == t && us[1] == ts[0] && gs[1] == hs[0] && Typable(ts[0]);
        FirstChar(ts, hs);
      } else {
        assert us[i - 1] == ts[i - 2] && us[i] == ts[i - 1] && gs[i] == hs[i - 1];
      }
    }
  }

  /** The line is l, of at most nine words a command, typed with some white space, and stands for the tree. */
  predicate Types(l: Line, gaps: seq<string>, line: string, t: Tree) {
    && FitLine(l) && AllTypable(LineTokens(l)) && Gaps(LineTokens(l), gaps)
    && Typed(LineTokens(l), gaps) == line && LineTree(l) == t
  }

  /** The characters that the grammar accepts, and the tree it makes of them, both ways. */
  lemma AcceptsExactly(line: string, t: Tree)
    requires IsLine(line)
    ensures G.ParseLine(Lex(line, 0)) == Fine(t, []) <==> exists l, gaps :: Types(l, gaps, line, t)
  {
    hide G.ParseLine, Lex, LineTokens, LineTree, FitLine, Typed, Gaps;
    ReadsExactly(Lex(line, 0), t);
    if l :| Writes(l, Lex(line, 0), t) {
      var gaps := LexWritten(line, 0);
      assert line[0..] == line;
      assert Types(l, gaps, line, t);
    }
    if l, gaps :| Types(l, gaps, line, t) {
      LexReads(LineTokens(l), gaps);
      assert Writes(l, Lex(line, 0), t);
    }
  }

  lemma Rejects(line: string)
    requires IsLine(line) && (G.ParseLine(Lex(line, 0)) == Panic || G.ParseLine(Lex(line, 0)).rest != [])
    ensures forall l, gaps, t :: !Types(l, gaps, line, t)
  {
    hide G.ParseLine, Lex, Types;
    forall l, gaps, t ensures !Types(l, gaps, line, t) {
      AcceptsExactly(line, t);
    }
  }

  // ---- Every tree can be typed ------------------------------------------------------------------

  /** Trees that a line can spell: real words, and no more arguments than sh.c takes. */
  predicate Writable(t: Tree) {
    match t
    case Exec(args) => |args| < MAXARGS && forall i :: 0 <= i < |args| ==> GoodWord(args[i])
    case Redir(c, r) => Writable(c) && GoodWord(r.file)
    case Pipe(l, r) => Writable(l) && Writable(r)
    case List(l, r) => Writable(l) && Writable(r)
    case Back(c) => Writable(c)
  }

  lemma {:induction false} WritableParts(t: Tree)
    requires Writable(t)
    ensures Writable(Base(t)) && Writable(Front(t)) && Small(t)
    ensures forall i :: 0 <= i < |RedirsOf(t)| ==> GoodWord(RedirsOf(t)[i].file)
  {
    match t {
      case Exec(_) =>
      case Redir(c, _) => WritableParts(c);
      case Pipe(l, r) =>
        WritableParts(l);
        WritableParts(r);
      case List(l, r) =>
        WritableParts(l);
        WritableParts(r);
      case Back(c) => WritableParts(c);
    }
  }

  lemma {:induction false} RedirsTypable(rs: seq<Redirect>)
    requires forall i :: 0 <= i < |rs| ==> GoodWord(rs[i].file)
    ensures AllTypable(RedirTokens(rs))
  {
    if rs != [] {
      RedirsTypable(rs[1..]);
      assert GoodWord(rs[0].file);
    }
  }

  lemma {:induction false} ArgsTypable(args: seq<Arg>)
    requires forall i :: 0 <= i < |args| ==> GoodWord(args[i].word) && args[i].redirs == []
    ensures AllTypable(ArgTokens(args))
  {
    if args != [] {
      ArgsTypable(args[1..]);
      assert GoodWord(args[0].word);
    }
  }

  lemma {:induction false} AmpsTypable(n: nat)
    ensures AllTypable(Ampersands(n))
  {
    if n > 0 {
      AmpsTypable(n - 1);
    }
  }

  lemma {:induction false} CommandTypable(t: Tree)
    requires Writable(t)
    ensures AllTypable(CommandTokens(AsCommand(t)))
    decreases t, if t.Exec? || t.Redir? then 0 else 3
  {
    WritableParts(t);
    RedirsTypable(Written(RedirsOf(t)));
    if Base(t).Exec? {
      ArgsTypable(WrittenArgs(Base(t).args));
    } else {
      LineTypable(Base(t));
    }
  }

  lemma {:induction false} PipelineTypable(t: Tree)
    requires Writable(t)
    ensures AllTypable(PipelineTokens(AsPipeline(t)))
    decreases t, if t.List? || t.Back? then 4 else 1
  {
    if t.Pipe? {
      CommandTypable(t.left);
      PipelineTypable(t.right);
    } else {
      CommandTypable(t);
    }
  }

  lemma {:induction false} LineTypable(t: Tree)
    requires Writable(t)
    ensures AllTypable(LineTokens(AsLine(t)))
    decreases t, 2
  {
    WritableParts(t);
    if t.List? {
      WritableParts(t.left);
      PipelineTypable(Front(t.left));
      AmpsTypable(Depth(t.left));
      LineTypable(t.right);
    } else {
      PipelineTypable(Front(t));
      AmpsTypable(Depth(t));
    }
  }

  /** Every writable tree, written with the parentheses it needs and typed in with any spacing, parses to itself. */
  lemma RoundTrip(t: Tree, gaps: seq<string>)
    requires Writable(t) && Gaps(LineTokens(AsLine(t)), gaps)
    ensures var line := Typed(LineTokens(AsLine(t)), gaps); IsLine(line) && G.ParseLine(Lex(line, 0)) == Fine(t, [])
  {
    hide G.ParseLine, Lex, LineTokens, Typed, Gaps, AsLine;
    var l := AsLine(t);
    LineTypable(t);
    WritableParts(t);
    LineIs(t);
    LexReads(LineTokens(l), gaps);
    ReadLine(l, []);
    assert LineTokens(l) + [] == LineTokens(l);
  }
}
