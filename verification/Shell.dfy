/**
 A shell reading the environment file: token recognition, pathname expansion,
 quote removal and the export built-in, by sections 2.2, 2.3, 2.6, 2.13 and 2.14
 of the Shell Command Language in POSIX.1-2017.  Which path names a word matches
 is an input.  The file is read up to the first thing that needs more than that:
 another expansion, an operator, an unfinished quotation, a command other than
 export, or an argument export refuses.
 */
module Shell {
  import opened Outcomes
  import opened Text
  import opened Base64
  import opened EnvFile

  /** A character with what quoting made of it; the opening of a quotation; or the end of what the text alone tells. */
  datatype Piece = Bare(c: char) | Quoted(c: char) | Opening | Halt

  datatype Mode = Plain | Single | Double

  predicate IsQuote(c: char) {
    c == '\'' || c == '\"' || c == '\\'
  }

  /** Unquoted, these start expansions and operators; a text holds no NUL. */
  predicate NeedsMore(c: char) {
    c in "$`;&|<>()" || c == '\0'
  }

  /** Unquoted, these make a word a pattern. */
  predicate IsPattern(c: char) {
    c == '*' || c == '?' || c == '['
  }

  predicate IsBlank(c: char) {
    c == ' ' || c == '\t'
  }

  /** Where a new token can begin. */
  predicate Breaks(c: char) {
    IsBlank(c) || c == '\n'
  }

  /** What follows a comment: the end of its line. */
  function SkipComment(t: string): (r: string)
    ensures |r| <= |t|
  {
    if t == "" || t[0] == '\n' then t else SkipComment(t[1..])
  }

  /** Quoting and comments; `atStart` where a token can begin. */
  function Read(t: string, atStart: bool, mode: Mode): seq<Piece>
    decreases |t|
  {
    if t == "" then (if mode.Plain? then [] else [Halt])
    else
      var c, rest := t[0], t[1..];
      match mode
      case Single => if c == '\'' then Read(rest, false, Plain) else [Quoted(c)] + Read(rest, false, Single)
      case Double =>
        if c == '\"' then Read(rest, false, Plain)
        else if c == '$' || c == '`' then [Halt]
        else if c == '\\' && rest != "" && rest[0] in "$`\"\\" then [Quoted(rest[0])] + Read(rest[1..], false, Double)
        else if c == '\\' && rest != "" && rest[0] == '\n' then Read(rest[1..], false, Double)
        else [Quoted(c)] + Read(rest, false, Double)
      case Plain =>
        if c == '\'' then [Opening] + Read(rest, false, Single)
        else if c == '\"' then [Opening] + Read(rest, false, Double)
        else if c == '\\' then
          if rest == "" then [Halt]
          else if rest[0] == '\n' then Read(rest[1..], atStart, Plain)
          else [Quoted(rest[0])] + Read(rest[1..], false, Plain)
        else if c == '#' && atStart then Read(SkipComment(rest), true, Plain)
        else if NeedsMore(c) then [Halt]
        else [Bare(c)] + Read(rest, Breaks(c), Plain)
  }

  predicate EndsLine(p: Piece) {
    p == Bare('\n')
  }

  predicate EndsWord(p: Piece) {
    p.Bare? && IsBlank(p.c)
  }

  /** The pieces before the first that stops. */
  function End(ps: seq<Piece>, stop: Piece -> bool): (n: nat)
    ensures n <= |ps|
    ensures forall i :: 0 <= i < n ==> !stop(ps[i])
    ensures n < |ps| ==> stop(ps[n])
  {
    if ps == [] || stop(ps[0]) then 0
    else
      var n := End(ps[1..], stop);
      assert forall i :: 1 <= i < n + 1 ==> ps[i] == ps[1..][i - 1];
      n + 1
  }

  function Words(line: seq<Piece>): seq<seq<Piece>>
    decreases |line|
  {
    if line == [] then []
    else if EndsWord(line[0]) then Words(line[1..])
    else
      var n := End(line, EndsWord);
      [line[..n]] + Words(line[n..])
  }

  /** A word after quote removal. */
  function TextOf(w: seq<Piece>): string {
    if w == [] then ""
    else (if w[0].Bare? || w[0].Quoted? then [w[0].c] else "") + TextOf(w[1..])
  }

  predicate IsNameStart(c: char) {
    'a' <= c <= 'z' || 'A' <= c <= 'Z' || c == '_'
  }

  predicate IsName(s: string) {
    s != "" && IsNameStart(s[0]) && forall c :: c in s ==> IsNameStart(c) || IsDigit(c)
  }

  /** A tilde that is expanded: unquoted, at the start of the word or of the value, or after a colon. */
  predicate HasTilde(w: seq<Piece>) {
    exists i :: 0 <= i < |w| && TildeAt(w, i)
  }

  predicate TildeAt(w: seq<Piece>, i: nat)
    requires i < |w|
  {
    w[i] == Bare('~') &&
    (i == 0 || w[i - 1] == Bare(':') || (w[i - 1] == Bare('=') && '=' !in TextOf(w[..i - 1])))
  }

  /** The variables set, in order, and whether the reading got to the end. */
  datatype Reading = Reading(pairs: seq<(string, string)>, complete: bool)

  predicate StartsPattern(p: Piece) {
    p.Bare? && IsPattern(p.c)
  }

  predicate HasPattern(w: seq<Piece>) {
    End(w, StartsPattern) < |w|
  }

  /** The path names a pattern matches, in the order a shell lists them; words without an entry match none. */
  type Files = map<seq<Piece>, seq<string>>

  /** A pattern that matches path names becomes these; a word that is none, or matches none, stays as it is. */
  function Fields(files: Files, w: seq<Piece>): (fs: seq<string>)
    ensures fs != []
  {
    if HasPattern(w) && w in files && files[w] != [] then files[w] else [TextOf(w)]
  }

  /** The arguments export takes, up to the first that is neither a name nor an assignment to one. */
  function Assign(fields: seq<string>): Reading {
    if fields == [] then Reading([], true)
    else
      var rest := Assign(fields[1..]);
      match Cut(fields[0], '=')
      case None => if IsName(fields[0]) then rest else Reading([], false)
      case Some(pair) => if IsName(pair.0) then Reading([pair] + rest.pairs, rest.complete) else Reading([], false)
  }

  /** One reading and, if it got to the end, another. */
  function Then(r: Reading, more: Reading): Reading {
    if r.complete then Reading(r.pairs + more.pairs, more.complete) else r
  }

  function Export(files: Files, args: seq<seq<Piece>>): Reading {
    if args == [] then Reading([], true)
    else if HasTilde(args[0]) then Reading([], false)
    else Then(Assign(Fields(files, args[0])), Export(files, args[1..]))
  }

  function Execute(files: Files, words: seq<seq<Piece>>): Reading {
    if words == [] then Reading([], true)
    else if TextOf(words[0]) != "export" then Reading([], false)
    else Export(files, words[1..])
  }

  function Source(files: Files, ps: seq<Piece>): Reading
    decreases |ps|
  {
    if ps == [] then Reading([], true)
    else
      var n := End(ps, EndsLine);
      if Halt in ps[..n] then Reading([], false)
      else if n == |ps| then Execute(files, Words(ps))
      else Then(Execute(files, Words(ps[..n])), Source(files, ps[n + 1..]))
  }

  /** The last setting of each variable. */
  function MapOf(pairs: seq<(string, string)>): map<string, string> {
    if pairs == [] then map[]
    else MapOf(pairs[..|pairs| - 1])[pairs[|pairs| - 1].0 := pairs[|pairs| - 1].1]
  }

  function Sourced(files: Files, t: string): Reading {
    Source(files, Read(t, true, Plain))
  }

  // ----- What the shell takes literally -----

  predicate IsLiteral(c: char) {
    !IsQuote(c) && !NeedsMore(c) && !Breaks(c)
  }

  predicate LiteralText(v: string) {
    forall c :: c in v ==> IsLiteral(c)
  }

  /** No tilde at the start or behind a colon, where it is expanded. */
  predicate TildeSafe(v: string) {
    forall i :: 0 <= i < |v| && v[i] == '~' ==> i > 0 && v[i - 1] != ':'
  }

  function Bares(t: string): (ps: seq<Piece>)
    ensures |ps| == |t| && forall i :: 0 <= i < |t| ==> ps[i] == Bare(t[i])
  {
    seq(|t|, i requires 0 <= i < |t| => Bare(t[i]))
  }

  /** What is left of a setting after pathname expansion: its last field. */
  function LastField(files: Files, k: string, v: string): string {
    var fs := Fields(files, Bares(k + "=" + v));
    fs[|fs| - 1]
  }

  function After(s: string, n: nat): string {
    if n <= |s| then s[n..] else ""
  }

  /** The value a setting leaves. */
  function ValueLeft(files: Files, k: string, v: string): string {
    After(LastField(files, k, v), |k| + 1)
  }

  /** Names for keys; literal values; and a setting that is a pattern matches nothing, or itself last. */
  predicate ShellSafe(files: Files, env: map<string, string>) {
    forall k :: k in env ==>
      IsName(k) && LiteralText(env[k]) && TildeSafe(env[k]) && LastField(files, k, env[k]) == k + "=" + env[k]
  }

  /** The text a pattern's matches begin with. */
  function LiteralStart(w: seq<Piece>): string {
    TextOf(w[..End(w, StartsPattern)])
  }

  /** Matches begin as the pattern does, and hold no blanks, newlines, quote characters, or others that need quoting. */
  predicate Tame(files: Files) {
    forall w :: w in files ==>
      forall i :: 0 <= i < |files[w]| ==> LiteralText(files[w][i]) && LiteralStart(w) <= files[w][i]
  }
}
