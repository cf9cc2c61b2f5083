/** Agent roles and the tags that name them. */
module Roles {
  import opened Wrappers

  datatype AgentRole = All | Architect | Builder | Auditor | Human | Custom(name: string)

  datatype RoleParseError = Empty | InvalidCharacter(text: string)

  // ---- Characters ----

  /** The Unicode White_Space property. */
  predicate IsWhitespace(c: char) {
    || '\t' <= c <= '\r' || c == ' ' || c == '\U{85}' || c == '\U{A0}' || c == '\U{1680}'
    || '\U{2000}' <= c <= '\U{200A}' || c == '\U{2028}' || c == '\U{2029}' || c == '\U{202F}'
    || c == '\U{205F}' || c == '\U{3000}'
  }

  function TrimStart(s: string): string {
    if s != [] && IsWhitespace(s[0]) then TrimStart(s[1..]) else s
  }

  function TrimEnd(s: string): string {
    if s != [] && IsWhitespace(s[|s| - 1]) then TrimEnd(s[..|s| - 1]) else s
  }

  function Trim(s: string): string {
    TrimEnd(TrimStart(s))
  }

  function ToLower(c: char): char {
    if 'A' <= c <= 'Z' then c + ' ' else c
  }

  function Lowercase(s: string): string {
    seq(|s|, i requires 0 <= i < |s| => ToLower(s[i]))
  }

  predicate TagChar(c: char) {
    'a' <= c <= 'z' || '0' <= c <= '9' || c == '_' || c == '-'
  }

  predicate TagText(s: string) {
    forall i :: 0 <= i < |s| ==> TagChar(s[i])
  }

  // ---- Tags ----

  function AsTag(r: AgentRole): string {
    match r
    case All => "all"
    case Architect => "architect"
    case Builder => "builder"
    case Auditor => "auditor"
    case Human => "human"
    case Custom(s) => s
  }

  function Display(r: AgentRole): string {
    "<@" + AsTag(r) + ">"
  }

  function Named(s: string): AgentRole {
    if s == "all" then All
    else if s == "architect" then Architect
    else if s == "builder" then Builder
    else if s == "auditor" then Auditor
    else if s == "human" then Human
    else Custom(s)
  }

  function FromInner(s: string): Result<AgentRole, RoleParseError> {
    var trimmed := Trim(s);
    if trimmed == [] then Err(Empty)
    else
      var lower := Lowercase(trimmed);
      if TagText(lower) then Ok(Named(lower)) else Err(InvalidCharacter(lower))
  }

  /** The text without one layer of `<@...>` or `@...`. */
  function Undecorated(s: string): string {
    if |s| >= 3 && s[..2] == "<@" && s[|s| - 1] == '>' then s[2..|s| - 1]
    else if s != [] && s[0] == '@' then s[1..]
    else s
  }

  function FromStr(s: string): Result<AgentRole, RoleParseError> {
    var trimmed := Trim(s);
    if trimmed == [] then Err(Empty) else FromInner(Undecorated(trimmed))
  }

  // ---- What is read ----

  /** Trimming takes white space off both ends and nothing else. */
  lemma {:induction false} TrimStartIs(s: string) returns (n: nat)
    ensures n <= |s| && TrimStart(s) == s[n..]
    ensures forall i :: 0 <= i < n ==> IsWhitespace(s[i])
    ensures n < |s| ==> !IsWhitespace(s[n])
  {
    n := 0;
    if s != [] && IsWhitespace(s[0]) {
      var m := TrimStartIs(s[1..]);
      n := m + 1;
    }
  }

  lemma {:induction false} TrimEndIs(s: string) returns (n: nat)
    ensures n <= |s| && TrimEnd(s) == s[..n]
    ensures forall i :: n <= i < |s| ==> IsWhitespace(s[i])
    ensures n > 0 ==> !IsWhitespace(s[n - 1])
  {
    n := |s|;
    if s != [] && IsWhitespace(s[|s| - 1]) {
      n := TrimEndIs(s[..|s| - 1]);
      assert s[..|s| - 1][..n] == s[..n];
      assert forall i :: n <= i < |s| - 1 ==> s[..|s| - 1][i] == s[i];
    }
  }

  lemma TrimIs(s: string) returns (a: nat, b: nat)
    ensures a <= b <= |s| && Trim(s) == s[a..b]
    ensures forall i :: 0 <= i < |s| && (i < a || b <= i) ==> IsWhitespace(s[i])
    ensures a < b ==> !IsWhitespace(s[a]) && !IsWhitespace(s[b - 1])
  {
    a := TrimStartIs(s);
    var n := TrimEndIs(s[a..]);
    b := a + n;
    assert s[a..][..n] == s[a..b];
    assert forall i :: a <= i < |s| ==> s[a..][i - a] == s[i];
  }

  /** The text of a tag, trimmed and in lower case, which only concerns the letters A to Z. */
  ghost predicate ReadsAs(s: string, name: string) {
    && |name| == |Trim(s)|
    && forall i :: 0 <= i < |name| ==>
      name[i] == if 'A' <= Trim(s)[i] <= 'Z' then Trim(s)[i] + ' ' else Trim(s)[i]
  }

  ghost predicate TagCharacters(name: string) {
    forall i :: 0 <= i < |name| ==>
      'a' <= name[i] <= 'z' || '0' <= name[i] <= '9' || name[i] == '_' || name[i] == '-'
  }

  /** What is read of a text, name by name. */
  lemma ReadTells(s: string, name: string)
    requires ReadsAs(s, name)
    ensures name == "" <==> FromInner(s) == Err(Empty)
    ensures name != "" && !TagCharacters(name) <==> FromInner(s) == Err(InvalidCharacter(name))
    ensures name == "all" <==> FromInner(s) == Ok(All)
    ensures name == "architect" <==> FromInner(s) == Ok(Architect)
    ensures name == "builder" <==> FromInner(s) == Ok(Builder)
    ensures name == "auditor" <==> FromInner(s) == Ok(Auditor)
    ensures name == "human" <==> FromInner(s) == Ok(Human)
    ensures FromInner(s) == Ok(Custom(name)) <==>
      name != "" && TagCharacters(name) && name !in ["all", "architect", "builder", "auditor", "human"]
  {
    assert name == Lowercase(Trim(s));
  }

  /** Of the whole text one layer of `<@...>`, or else a leading `@`, is taken off before it is read. */
  lemma LayersTaken(s: string, inner: string)
    ensures Trim(s) == "" ==> FromStr(s) == Err(Empty)
    ensures Trim(s) == "<@" + inner + ">" ==> FromStr(s) == FromInner(inner)
    ensures Trim(s) == "@" + inner ==> FromStr(s) == FromInner(inner)
    ensures Trim(s) == inner && inner != "" && inner[0] != '@' && !("<@" <= inner && inner[|inner| - 1] == '>') ==>
      FromStr(s) == FromInner(inner)
  {
    var t := Trim(s);
    if t == "<@" + inner + ">" {
      assert t[..2] == "<@" && t[2..|t| - 1] == inner;
    }
    if t == "@" + inner {
      assert t[1..] == inner && (|t| >= 3 ==> t[..2][0] == '@');
    }
    assert |t| >= 3 && t[..2] == "<@" ==> "<@" <= t;
  }

  // ---- Round trips ----

  /** A role that some tag names: custom names are tag text and no other role's name. */
  predicate WellFormed(r: AgentRole) {
    r.Custom? ==> r.name != [] && TagText(r.name) && Named(r.name) == r
  }

  lemma TrimEnds(s: string)
    requires s != [] ==> !IsWhitespace(s[0]) && !IsWhitespace(s[|s| - 1])
    ensures Trim(s) == s
  {
  }

  lemma TagTextTrims(s: string)
    requires TagText(s)
    ensures Trim(s) == s && Lowercase(s) == s
  {
    if s != [] {
      assert TagChar(s[0]) && TagChar(s[|s| - 1]);
    }
  }

  lemma TagOfWellFormed(r: AgentRole)
    requires WellFormed(r)
    ensures AsTag(r) != [] && TagText(AsTag(r)) && Named(AsTag(r)) == r
  {
  }

  lemma NamedWellFormed(s: string)
    requires s != [] && TagText(s)
    ensures WellFormed(Named(s)) && AsTag(Named(s)) == s
  {
  }

  /** What a tag names is well-formed. */
  lemma ParsedIsWellFormed(s: string)
    requires FromInner(s).Ok?
    ensures WellFormed(FromInner(s).value) && AsTag(FromInner(s).value) == Lowercase(Trim(s))
  {
    NamedWellFormed(Lowercase(Trim(s)));
  }

  /** Writing a role as a tag and reading it gives the role, exactly for the well-formed ones. */
  lemma RoleRoundTripIff(r: AgentRole)
    ensures FromInner(AsTag(r)) == Ok(r) <==> WellFormed(r)
  {
    if WellFormed(r) {
      TagOfWellFormed(r);
      TagTextTrims(AsTag(r));
    }
    if FromInner(AsTag(r)) == Ok(r) {
      ParsedIsWellFormed(AsTag(r));
    }
  }

  /** The bare, the `@` and the bracketed form are all read as the role. */
  lemma FormsAgree(r: AgentRole)
    requires WellFormed(r)
    ensures FromStr(AsTag(r)) == FromStr("@" + AsTag(r)) == FromStr(Display(r)) == Ok(r)
  {
    var t := AsTag(r);
    TagOfWellFormed(r);
    TagTextTrims(t);
    RoleRoundTripIff(r);
    assert TagChar(t[0]) && TagChar(t[|t| - 1]);
    BareForm(t);
    AtForm(t);
    BracketedForm(t);
  }

  lemma BareForm(t: string)
    requires t != [] && TagText(t)
    ensures FromStr(t) == FromInner(t)
  {
    TagTextTrims(t);
    assert TagChar(t[0]);
    assert |t| >= 3 ==> t[..2][0] == t[0];
  }

  lemma AtForm(t: string)
    requires t != [] && TagText(t)
    ensures FromStr("@" + t) == FromInner(t)
  {
    var s := "@" + t;
    assert TagChar(t[|t| - 1]) && s[|s| - 1] == t[|t| - 1] && s[0] == '@';
    TrimEnds(s);
    assert |s| >= 3 ==> s[..2][0] == '@';
    assert s[1..] == t;
  }

  lemma BracketedForm(t: string)
    ensures FromStr("<@" + t + ">") == FromInner(t)
  {
    var s := "<@" + t + ">";
    TrimEnds(s);
    assert s[..2] == "<@" && s[2..|s| - 1] == t;
  }
}
