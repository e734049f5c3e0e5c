/** Quoting of MariaDB string literals, and the lexer that reads the generated statements. */
module SqlLiteral {
  import opened Wrappers

  // ---- the program: quoting and the credential statements

  function Replace(s: string, c: char, text: string): string {
    if s == "" then "" else (if s[0] == c then text else [s[0]]) + Replace(s[1..], c, text)
  }

  /** Backslashes are doubled first, then quotes. */
  function SqlString(value: string): string {
    "'" + Replace(Replace(value, '\\', "\\\\"), '\'', "''") + "'"
  }

  predicate SafeIdentifier(name: string) {
    name != "" && forall i :: 0 <= i < |name| ==> IsWordChar(name[i])
  }

  function AlterUser(user: string, host: string, password: string): string {
    "ALTER USER `" + user + "`@`" + host + "` IDENTIFIED BY " + SqlString(password) + ";\n"
  }

  function CredentialStatement(username: string, password: string, rootPassword: string): string {
    "FLUSH PRIVILEGES;\n" + AlterUser("root", "localhost", rootPassword) + AlterUser(username, "%", password)
  }

  // ---- the lexer of the server

  datatype Token = Word(text: string) | Name(text: string) | Literal(value: string) | Symbol(c: char)

  predicate IsWordChar(c: char) {
    'A' <= c <= 'Z' || 'a' <= c <= 'z' || '0' <= c <= '9' || c == '_'
  }

  predicate IsBlank(c: char) {
    c == ' ' || c == '\n' || c == '\t' || c == '\r'
  }

  /** The meaning of a backslash escape; \% and \_ keep their backslash. */
  function Unescape(c: char): string {
    if c == 'n' then "\n" else if c == 't' then "\t" else if c == 'r' then "\r"
    else if c == '0' then "\0" else if c == 'b' then [8 as char] else if c == 'Z' then [26 as char]
    else if c == '%' || c == '_' then ['\\', c]
    else [c]
  }

  /** Reads up to the closing quote character: quote doubling always, backslash escapes for literals only. */
  function ReadQuoted(s: string, quote: char, escapes: bool): (r: Option<(string, string)>)
    ensures r.Some? ==> |r.value.1| < |s|
  {
    if s == "" then None
    else if s[0] == quote then
      if |s| > 1 && s[1] == quote then Prefixed([quote], ReadQuoted(s[2..], quote, escapes)) else Some(("", s[1..]))
    else if escapes && s[0] == '\\' then
      if |s| == 1 then None else Prefixed(Unescape(s[1]), ReadQuoted(s[2..], quote, escapes))
    else Prefixed([s[0]], ReadQuoted(s[1..], quote, escapes))
  }

  function Prefixed(text: string, r: Option<(string, string)>): (p: Option<(string, string)>)
    ensures p.Some? <==> r.Some?
    ensures r.Some? ==> p.value.1 == r.value.1
  {
    if r.Some? then Some((text + r.value.0, r.value.1)) else None
  }

  function WordLength(s: string): (n: nat)
    ensures n <= |s|
  {
    if s != "" && IsWordChar(s[0]) then 1 + WordLength(s[1..]) else 0
  }

  function Append(ts: seq<Token>, r: Option<seq<Token>>): Option<seq<Token>> {
    if r.Some? then Some(ts + r.value) else None
  }

  function Lex(s: string): Option<seq<Token>>
    decreases |s|
  {
    if s == "" then Some([])
    else if IsBlank(s[0]) then Lex(s[1..])
    else if s[0] == '\'' || s[0] == '`' then
      var r := ReadQuoted(s[1..], s[0], s[0] == '\'');
      if r.None? then None
      else Append([if s[0] == '`' then Name(r.value.0) else Literal(r.value.0)], Lex(r.value.1))
    else if IsWordChar(s[0]) then Append([Word(s[..WordLength(s)])], Lex(s[WordLength(s)..]))
    else Append([Symbol(s[0])], Lex(s[1..]))
  }

  /** The statements of a token list, each without its closing semicolon; what follows the last one is the remainder. */
  function Statements(ts: seq<Token>): (r: (seq<seq<Token>>, seq<Token>)) {
    if ts == [] then ([], [])
    else
      var (done, last) := Statements(ts[..|ts| - 1]);
      if ts[|ts| - 1] == Symbol(';') then (done + [last], []) else (done, last + [ts[|ts| - 1]])
  }

  // ---- one escape per character

  function EscapeChar(c: char): string {
    if c == '\\' then "\\\\" else if c == '\'' then "''" else [c]
  }

  function Escape(value: string): string {
    if value == "" then "" else EscapeChar(value[0]) + Escape(value[1..])
  }

  lemma {:induction false} ReplaceConcat(a: string, b: string, c: char, text: string)
    ensures Replace(a + b, c, text) == Replace(a, c, text) + Replace(b, c, text)
  {
    if a == "" {
      assert a + b == b;
    } else {
      ReplaceConcat(a[1..], b, c, text);
      assert (a + b)[1..] == a[1..] + b;
      var head := if a[0] == c then text else [a[0]];
      assert head + (Replace(a[1..], c, text) + Replace(b, c, text)) == (head + Replace(a[1..], c, text)) + Replace(b, c, text);
    }
  }

  lemma ReplaceEscaped(c: char)
    ensures Replace(if c == '\\' then "\\\\" else [c], '\'', "''") == EscapeChar(c)
  {
    assert Replace("", '\'', "''") == "";
    if c == '\\' {
      assert "\\\\"[1..] == "\\" && "\\"[1..] == "";
      assert Replace("\\", '\'', "''") == "\\";
    } else {
      assert [c][1..] == "";
    }
  }

  /** The two sequential replacements are one escape per character: neither sees the other's output. */
  lemma {:induction false} ReplacesAreEscape(value: string)
    ensures Replace(Replace(value, '\\', "\\\\"), '\'', "''") == Escape(value)
  {
    if value == "" {
    } else {
      ReplacesAreEscape(value[1..]);
      ReplaceEscaped(value[0]);
      ReplaceConcat(if value[0] == '\\' then "\\\\" else [value[0]], Replace(value[1..], '\\', "\\\\"), '\'', "''");
    }
  }

  // ---- reading a literal back

  lemma ReadEscaped(c: char, rest: string)
    ensures ReadQuoted(EscapeChar(c) + rest, '\'', true) == Prefixed([c], ReadQuoted(rest, '\'', true))
  {
    var s := EscapeChar(c) + rest;
    if c == '\\' || c == '\'' {
      assert s[0] == c && s[1] == c && s[2..] == rest;
    } else {
      assert s[0] == c && s[1..] == rest;
    }
  }

  lemma {:induction false} ReadEscape(value: string, rest: string)
    requires rest == "" || rest[0] != '\''
    ensures ReadQuoted(Escape(value) + "'" + rest, '\'', true) == Some((value, rest))
  {
    if value == "" {
      assert Escape(value) + "'" + rest == "'" + rest;
      assert ("'" + rest)[1..] == rest;
    } else {
      var tail := Escape(value[1..]) + "'" + rest;
      ReadEscape(value[1..], rest);
      assert Escape(value) + "'" + rest == EscapeChar(value[0]) + tail;
      ReadEscaped(value[0], tail);
      assert [value[0]] + value[1..] == value;
    }
  }

  lemma LexOpenQuote(t: string, value: string, rest: string)
    requires ReadQuoted(t, '\'', true) == Some((value, rest))
    ensures Lex("'" + t) == Append([Literal(value)], Lex(rest))
  {
    assert ("'" + t)[1..] == t;
  }

  /** The lexer reads exactly the quoted value back, whatever follows that is not a quote. */
  lemma LiteralRoundTrip(value: string, rest: string)
    requires rest == "" || rest[0] != '\''
    ensures Lex(SqlString(value) + rest) == Append([Literal(value)], Lex(rest))
  {
    ReadEscape(value, rest);
    QuotedText(value);
    hide SqlString;
    LexQuoted(SqlString(value), Escape(value), value, rest);
  }

  lemma LexQuoted(literal: string, e: string, value: string, rest: string)
    requires literal == "'" + e + "'" && ReadQuoted(e + "'" + rest, '\'', true) == Some((value, rest))
    ensures Lex(literal + rest) == Append([Literal(value)], Lex(rest))
  {
    var t := e + "'" + rest;
    LexOpenQuote(t, value, rest);
    assert literal + rest == "'" + t;
  }

  lemma QuotedText(value: string)
    ensures SqlString(value) == "'" + Escape(value) + "'"
  {
    ReplacesAreEscape(value);
  }

  // ---- lexing the generated statements

  lemma {:induction false} WordLengthOf(w: string, rest: string)
    requires (forall i :: 0 <= i < |w| ==> IsWordChar(w[i])) && (rest == "" || !IsWordChar(rest[0]))
    ensures WordLength(w + rest) == |w|
  {
    if w == "" {
      assert w + rest == rest;
    } else {
      assert (w + rest)[1..] == w[1..] + rest;
      WordLengthOf(w[1..], rest);
    }
  }

  lemma LexWord(w: string, rest: string)
    requires SafeIdentifier(w) && (rest == "" || !IsWordChar(rest[0]))
    ensures Lex(w + rest) == Append([Word(w)], Lex(rest))
  {
    WordLengthOf(w, rest);
    assert (w + rest)[..|w|] == w && (w + rest)[|w|..] == rest;
    assert IsWordChar(w[0]);
  }

  lemma LexBlank(c: char, rest: string)
    requires IsBlank(c)
    ensures Lex([c] + rest) == Lex(rest)
  {
    assert ([c] + rest)[1..] == rest;
  }

  lemma LexSymbol(c: char, rest: string)
    requires !IsBlank(c) && !IsWordChar(c) && c != '\'' && c != '`'
    ensures Lex([c] + rest) == Append([Symbol(c)], Lex(rest))
  {
    assert ([c] + rest)[1..] == rest;
  }

  lemma {:induction false} ReadName(name: string, rest: string)
    requires '`' !in name && (rest == "" || rest[0] != '`')
    ensures ReadQuoted(name + "`" + rest, '`', false) == Some((name, rest))
  {
    var s := name + "`" + rest;
    if name == "" {
      assert s[1..] == rest;
    } else {
      assert s[1..] == name[1..] + "`" + rest;
      ReadName(name[1..], rest);
      assert [name[0]] + name[1..] == name;
    }
  }

  lemma LexName(name: string, rest: string)
    requires '`' !in name && (rest == "" || rest[0] != '`')
    ensures Lex("`" + name + "`" + rest) == Append([Name(name)], Lex(rest))
  {
    assert ("`" + name + "`" + rest)[1..] == name + "`" + rest;
    ReadName(name, rest);
  }

  function AlterTokens(user: string, host: string, password: string): (ts: seq<Token>)
    ensures Symbol(';') !in ts
  {
    [Word("ALTER"), Word("USER"), Name(user), Symbol('@'), Name(host),
     Word("IDENTIFIED"), Word("BY"), Literal(password)]
  }

  lemma AppendTwice(ts: seq<Token>, us: seq<Token>, r: Option<seq<Token>>)
    ensures Append(ts, Append(us, r)) == Append(ts + us, r)
  {
    if r.Some? {
      assert ts + (us + r.value) == (ts + us) + r.value;
    }
  }

  lemma AppendTwo(a: Token, b: Token, r: Option<seq<Token>>)
    ensures Append([a], Append([b], r)) == Append([a, b], r)
  {
    AppendTwice([a], [b], r);
    assert [a] + [b] == [a, b];
  }

  lemma AppendThree(a: Token, b: Token, c: Token, r: Option<seq<Token>>)
    ensures Append([a], Append([b], Append([c], r))) == Append([a, b, c], r)
  {
    AppendTwo(b, c, r);
    AppendTwice([a], [b, c], r);
    assert [a] + [b, c] == [a, b, c];
  }

  lemma LexWordThenBlank(w: string, c: char, rest: string)
    requires SafeIdentifier(w) && IsBlank(c)
    ensures Lex(w + [c] + rest) == Append([Word(w)], Lex(rest))
  {
    LexWord(w, [c] + rest);
    LexBlank(c, rest);
    assert w + ([c] + rest) == w + [c] + rest;
  }

  lemma LexIdentifiedBy(rest: string)
    ensures Lex(" IDENTIFIED BY " + rest) == Append([Word("IDENTIFIED"), Word("BY")], Lex(rest))
  {
    var s := "BY" + [' '] + rest;
    assert " IDENTIFIED BY " + rest == [' '] + ("IDENTIFIED" + [' '] + s);
    LexBlank(' ', "IDENTIFIED" + [' '] + s);
    LexWordThenBlank("IDENTIFIED", ' ', s);
    LexWordThenBlank("BY", ' ', rest);
    AppendTwo(Word("IDENTIFIED"), Word("BY"), Lex(rest));
  }

  lemma LexAlterUser(rest: string)
    ensures Lex("ALTER USER " + rest) == Append([Word("ALTER"), Word("USER")], Lex(rest))
  {
    var s := "USER" + [' '] + rest;
    assert "ALTER USER " + rest == "ALTER" + [' '] + s;
    LexWordThenBlank("ALTER", ' ', s);
    LexWordThenBlank("USER", ' ', rest);
    AppendTwo(Word("ALTER"), Word("USER"), Lex(rest));
  }

  lemma FlushText(rest: string)
    ensures "FLUSH PRIVILEGES;\n" + rest == "FLUSH" + [' '] + ("PRIVILEGES" + ([';'] + (['\n'] + rest)))
  {
    assert "FLUSH PRIVILEGES;\n" == "FLUSH " + "PRIVILEGES" + ";\n";
  }

  lemma LexFlush(rest: string)
    ensures Lex("FLUSH PRIVILEGES;\n" + rest) == Append([Word("FLUSH"), Word("PRIVILEGES"), Symbol(';')], Lex(rest))
  {
    var t := "PRIVILEGES" + ([';'] + (['\n'] + rest));
    FlushText(rest);
    LexWordThenBlank("FLUSH", ' ', t);
    LexPrivileges(rest);
    AppendThree(Word("FLUSH"), Word("PRIVILEGES"), Symbol(';'), Lex(rest));
  }

  lemma LexPrivileges(rest: string)
    ensures Lex("PRIVILEGES" + ([';'] + (['\n'] + rest))) == Append([Word("PRIVILEGES")], Append([Symbol(';')], Lex(rest)))
  {
    var s := [';'] + (['\n'] + rest);
    LexWord("PRIVILEGES", s);
    LexSymbol(';', ['\n'] + rest);
    LexBlank('\n', rest);
  }

  lemma LexAccount(user: string, host: string, rest: string)
    requires '`' !in user && '`' !in host && (rest == "" || rest[0] != '`')
    ensures Lex("`" + user + "`@`" + host + "`" + rest) == Append([Name(user), Symbol('@'), Name(host)], Lex(rest))
  {
    var s := "`" + host + "`" + rest;
    assert "`" + user + "`@`" + host + "`" + rest == "`" + user + "`" + (['@'] + s);
    LexName(user, ['@'] + s);
    LexSymbol('@', s);
    LexName(host, rest);
    AppendThree(Name(user), Symbol('@'), Name(host), Lex(rest));
  }

  lemma LexPassword(password: string, rest: string)
    ensures Lex(SqlString(password) + ";\n" + rest) == Append([Literal(password), Symbol(';')], Lex(rest))
  {
    var s := [';'] + (['\n'] + rest);
    assert SqlString(password) + ";\n" + rest == SqlString(password) + s;
    LiteralRoundTrip(password, s);
    LexSymbol(';', ['\n'] + rest);
    LexBlank('\n', rest);
    AppendTwo(Literal(password), Symbol(';'), Lex(rest));
  }

  lemma LexAlter(user: string, host: string, password: string, rest: string)
    requires '`' !in user && '`' !in host
    ensures Lex(AlterUser(user, host, password) + rest)
         == Append(AlterTokens(user, host, password) + [Symbol(';')], Lex(rest))
  {
    var s0 := SqlString(password) + ";\n" + rest;
    var s1 := " IDENTIFIED BY " + s0;
    var s2 := "`" + user + "`@`" + host + "`" + s1;
    AlterUserText(user, host, password, rest);
    LexAlterUser(s2);
    LexAccount(user, host, s1);
    LexIdentifiedBy(s0);
    LexPassword(password, rest);
    var t0, t1, t2 := [Literal(password), Symbol(';')], [Word("IDENTIFIED"), Word("BY")], [Name(user), Symbol('@'), Name(host)];
    AppendTwice(t1, t0, Lex(rest));
    AppendTwice(t2, t1 + t0, Lex(rest));
    AppendTwice([Word("ALTER"), Word("USER")], t2 + (t1 + t0), Lex(rest));
    assert [Word("ALTER"), Word("USER")] + (t2 + (t1 + t0)) == AlterTokens(user, host, password) + [Symbol(';')];
  }

  lemma AlterUserText(user: string, host: string, password: string, rest: string)
    ensures AlterUser(user, host, password) + rest
         == "ALTER USER " + ("`" + user + "`@`" + host + "`" + (" IDENTIFIED BY " + (SqlString(password) + ";\n" + rest)))
  {
    hide SqlString;
    var q := SqlString(password);
    assert "ALTER USER `" == "ALTER USER " + "`";
    assert "` IDENTIFIED BY " == "`" + " IDENTIFIED BY ";
  }

  lemma {:induction false} StatementsAppend(ts: seq<Token>, done: seq<seq<Token>>, body: seq<Token>)
    requires Statements(ts) == (done, []) && Symbol(';') !in body
    ensures Statements(ts + body) == (done, body)
  {
    if body == [] {
      assert ts + body == ts;
    } else {
      var init := body[..|body| - 1];
      StatementsAppend(ts, done, init);
      assert (ts + body)[..|ts + body| - 1] == ts + init;
      assert init + [body[|body| - 1]] == body;
    }
  }

  lemma StatementsClose(ts: seq<Token>, done: seq<seq<Token>>, body: seq<Token>, all: seq<seq<Token>>)
    requires Statements(ts) == (done, []) && Symbol(';') !in body && all == done + [body]
    ensures Statements(ts + body + [Symbol(';')]) == (all, [])
  {
    StatementsAppend(ts, done, body);
    assert (ts + body + [Symbol(';')])[..|ts + body|] == ts + body;
  }

  lemma LexAfterFlush(root: string, user: string, t2: seq<Token>, t3: seq<Token>)
    requires Lex(root + user) == Append(t2, Lex(user)) && Lex(user) == Some(t3)
    ensures Lex("FLUSH PRIVILEGES;\n" + root + user) == Some([Word("FLUSH"), Word("PRIVILEGES"), Symbol(';')] + (t2 + t3))
  {
    LexFlush(root + user);
    assert "FLUSH PRIVILEGES;\n" + root + user == "FLUSH PRIVILEGES;\n" + (root + user);
  }

  lemma LexCredentials(username: string, password: string, rootPassword: string)
    requires SafeIdentifier(username)
    ensures Lex(CredentialStatement(username, password, rootPassword))
         == Some([Word("FLUSH"), Word("PRIVILEGES"), Symbol(';')]
                 + (AlterTokens("root", "localhost", rootPassword) + [Symbol(';')]
                    + (AlterTokens(username, "%", password) + [Symbol(';')])))
  {
    var user := AlterUser(username, "%", password);
    LexAlter("root", "localhost", rootPassword, user);
    LexAlter(username, "%", password, "");
    assert user + "" == user;
    var t3 := AlterTokens(username, "%", password) + [Symbol(';')];
    assert t3 + [] == t3;
    LexAfterFlush(AlterUser("root", "localhost", rootPassword), user,
                  AlterTokens("root", "localhost", rootPassword) + [Symbol(';')], t3);
  }

  /** For every pair of passwords, the text is three statements: the flush and the two password changes. */
  lemma CredentialStatements(username: string, password: string, rootPassword: string)
    requires SafeIdentifier(username)
    ensures var ts := Lex(CredentialStatement(username, password, rootPassword));
            && ts.Some?
            && Statements(ts.value)
               == ([[Word("FLUSH"), Word("PRIVILEGES")],
                    AlterTokens("root", "localhost", rootPassword),
                    AlterTokens(username, "%", password)], [])
  {
    var flush := [Word("FLUSH"), Word("PRIVILEGES")];
    var ta, tb := AlterTokens("root", "localhost", rootPassword), AlterTokens(username, "%", password);
    LexCredentials(username, password, rootPassword);
    ThreeStatements(flush, ta, tb);
    hide AlterTokens, CredentialStatement;
    assert flush + [Symbol(';')] + ta + [Symbol(';')] + tb + [Symbol(';')]
        == [Word("FLUSH"), Word("PRIVILEGES"), Symbol(';')] + (ta + [Symbol(';')] + (tb + [Symbol(';')]));
  }

  lemma ThreeStatements(a: seq<Token>, b: seq<Token>, c: seq<Token>)
    requires Symbol(';') !in a && Symbol(';') !in b && Symbol(';') !in c
    ensures Statements(a + [Symbol(';')] + b + [Symbol(';')] + c + [Symbol(';')]) == ([a, b, c], [])
  {
    var t1 := a + [Symbol(';')];
    assert [] + a + [Symbol(';')] == t1;
    StatementsClose([], [], a, [a]);
    StatementsClose(t1, [a], b, [a, b]);
    StatementsClose(t1 + b + [Symbol(';')], [a, b], c, [a, b, c]);
  }
}
