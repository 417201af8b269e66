/** The type-mapping generator of binary/marshall/generator/type_gen.py: it
    reads Odin struct definitions line by line, flattens one target struct
    into a table of primitive sizes plus a tree of properties, and packs the
    size table into the `.mrmap` file. The table of primitive sizes comes
    from a module that is not part of this model, so it is a parameter. */
module TypeGen {
  import opened Common
  import Levenshtein

  /** The generator's exceptions. */
  datatype Error =
    | IndexError                                      // a member scan ran past the last line
    | MemberNotResolved(member: string)               // "… not a struct nor an arbitrary value!"
    | DefinitionNotFound(member: string, typ: string) // "The definition for the member … was not found!"
    | RecursionLimit                                  // nesting deeper than the fuel allows
    | StructPackError                                 // struct.pack refused a value
    | StructNotFound(name: string, suggestion: Option<string>)

  // ----- Int8 -----------------------------------------------------------

  /** `Int8`: an integer whose `+=` wraps modulo 2^8. The constructor does not wrap. */
  class Int8 {
    var value: int
    const maxValue: int := TWO_8 - 1

    constructor (v: int)
      ensures value == v
    {
      value := v;
    }

    /** `__iadd__`: Python's `%` by a positive modulus is never negative, like Dafny's. */
    method AddAssign(other: int)
      modifies this
      ensures value == (old(value) + other) % (maxValue + 1)
      ensures 0 <= value <= maxValue
    {
      value := (value + other) % (maxValue + 1);
    }
  }

  /** Two successive wrapping additions equal one wrapping addition of the sum. */
  lemma WrapAddTwice(v: int, a: int, b: int)
    ensures ((v + a) % TWO_8 + b) % TWO_8 == (v + a + b) % TWO_8
  {
    var q := (v + a) / TWO_8;
    assert v + a == q * TWO_8 + (v + a) % TWO_8;
    ModAddMultiple((v + a) % TWO_8 + b, q);
    assert (v + a) % TWO_8 + b + q * TWO_8 == v + a + b;
  }

  lemma ModAddMultiple(x: int, q: int)
    ensures (x + q * TWO_8) % TWO_8 == x % TWO_8
  {
    var r := x % TWO_8;
    var d := x / TWO_8;
    assert x == d * TWO_8 + r;
    assert x + q * TWO_8 == (d + q) * TWO_8 + r;
  }

  // ----- struct members --------------------------------------------------

  datatype Primitive = Primitive(typ: string, size: nat)

  /** A member; `primitive` is None for a member whose type is not in the table. */
  datatype StructMember = StructMember(name: string, typ: string, primitive: Option<Primitive>)

  datatype Struct = Struct(name: string, members: seq<StructMember>)

  /** `StructMember.__init__`: with a count of 1 the size is the table's size of
      the type; with any other count the size is the count itself. */
  function NewStructMember(name: string, typ: string, nbytes: nat, primitiveSizes: map<string, nat>): (m: StructMember)
    ensures m.name == name && m.typ == typ
    ensures m.primitive.None? <==> typ !in primitiveSizes
    ensures m.primitive.Some? ==> m.primitive.value.typ == typ
    ensures m.primitive.Some? && nbytes == 1 ==> m.primitive.value.size == primitiveSizes[typ]
    ensures m.primitive.Some? && nbytes != 1 ==> m.primitive.value.size == nbytes
  {
    if typ in primitiveSizes then
      StructMember(name, typ, Some(Primitive(typ, if nbytes == 1 then primitiveSizes[typ] * nbytes else nbytes)))
    else
      StructMember(name, typ, None)
  }

  // ----- the two line patterns -------------------------------------------

  /** One element of a line pattern: a greedy `\w+`, a greedy `\d+` (both
      captured as a group), a greedy `\s*`, or literal text. */
  datatype Token = Word | Digits | Spaces | Lit(text: string)

  function GroupCount(tokens: seq<Token>): nat
  {
    if tokens == [] then 0
    else (if tokens[0].Word? || tokens[0].Digits? then 1 else 0) + GroupCount(tokens[1..])
  }

  /** Matches one token at the start of s: the groups it captures and the rest of s. */
  function MatchToken(t: Token, s: string): (r: Option<(seq<string>, string)>)
    ensures r.Some? ==> |r.value.1| <= |s|
    ensures r.Some? ==> |r.value.0| == if t.Word? || t.Digits? then 1 else 0
  {
    match t
    case Word =>
      var n := WordPrefix(s);
      if n == 0 then None else Some(([s[..n]], s[n..]))
    case Digits =>
      var n := DigitPrefix(s);
      if n == 0 then None else Some(([s[..n]], s[n..]))
    case Spaces => Some(([], s[SpacePrefix(s)..]))
    case Lit(p) => if StartsWith(s, p) then Some(([], s[|p|..])) else None
  }

  /** Matches a token sequence at the start of s (Python's `re.match`). Each
      pattern below puts after every repeated class a token that cannot begin
      with a character of that class, so the regex engine has nothing to
      backtrack into and this greedy left-to-right reading finds the same
      match, or none exactly when it does. */
  function MatchTokens(tokens: seq<Token>, s: string): (r: Option<(seq<string>, string)>)
    ensures r.Some? ==> |r.value.0| == GroupCount(tokens)
    decreases |s| + |tokens|
  {
    if tokens == [] then Some(([], s))
    else
      match MatchToken(tokens[0], s)
      case None => None
      case Some((g, rest)) =>
        match MatchTokens(tokens[1..], rest)
        case None => None
        case Some((gs, rest')) => Some((g + gs, rest'))
  }

  /** `STRUCT_DEF_BEGIN`, `(\w+)\s*::\s*struct\s*{`. */
  const STRUCT_DEF_BEGIN: seq<Token> := [Word, Spaces, Lit("::"), Spaces, Lit("struct"), Spaces, Lit("{")]

  /** `STRUCT_PROP_DECL`, `(\w+)\s*:\s*(\w+)(?:\[(\d+)\])?,`, without and with
      the optional count; after the type word the next character decides
      which of the two can match. */
  const PROP_PLAIN: seq<Token> := [Word, Spaces, Lit(":"), Spaces, Word, Lit(",")]
  const PROP_COUNTED: seq<Token> := [Word, Spaces, Lit(":"), Spaces, Word, Lit("["), Digits, Lit("],")]

  /** The struct name of a header line. */
  function MatchStructBegin(line: string): (r: Option<string>)
  {
    match MatchTokens(STRUCT_DEF_BEGIN, line)
    case None => None
    case Some((gs, _)) =>
      Some(gs[0])
  }

  /** The groups of a `STRUCT_PROP_DECL` match: name, type and optional count. */
  datatype PropDecl = PropDecl(name: string, typ: string, count: Option<nat>)

  /** The member declared by a line, if it is a member line. */
  function MatchPropDecl(line: string): (r: Option<PropDecl>)
  {
    match MatchTokens(PROP_COUNTED, line)
    case Some((gs, _)) =>
      Some(PropDecl(gs[0], gs[1], Some(LeadingValue(gs[2]))))
    case None =>
      match MatchTokens(PROP_PLAIN, line)
      case Some((gs, _)) =>
          Some(PropDecl(gs[0], gs[1], None))
      case None => None
  }

  lemma {:induction false} WordPrefixOfWord(w: string, rest: string)
    requires forall i :: 0 <= i < |w| ==> IsWordChar(w[i])
    requires rest == [] || !IsWordChar(rest[0])
    ensures WordPrefix(w + rest) == |w|
  {
    if w != [] {
      assert (w + rest)[1..] == w[1..] + rest;
      WordPrefixOfWord(w[1..], rest);
    }
  }

  lemma MatchWordToken(w: string, rest: string)
    requires IsWord(w) && (rest == [] || !IsWordChar(rest[0]))
    ensures MatchToken(Word, w + rest) == Some(([w], rest))
  {
    WordPrefixOfWord(w, rest);
    assert (w + rest)[..|w|] == w && (w + rest)[|w|..] == rest;
  }

  lemma MatchOneSpace(rest: string)
    requires rest == [] || !IsSpace(rest[0])
    ensures MatchToken(Spaces, " " + rest) == Some(([], rest))
  {
    assert SpacePrefix(" " + rest) == 1 + SpacePrefix(rest);
  }

  lemma MatchNoSpace(rest: string)
    requires rest == [] || !IsSpace(rest[0])
    ensures MatchToken(Spaces, rest) == Some(([], rest))
  {
  }

  lemma MatchLit(p: string, rest: string)
    ensures MatchToken(Lit(p), p + rest) == Some(([], rest))
  {
    assert (p + rest)[..|p|] == p && (p + rest)[|p|..] == rest;
  }

  lemma MatchLitFails(p: string, s: string)
    requires |p| > 0 && |s| > 0 && s[0] != p[0]
    ensures MatchToken(Lit(p), s).None?
  {
    if |p| <= |s| {
      assert s[..|p|][0] != p[0];
    }
  }

  /** One matching step at the head of a pattern. */
  lemma MatchCons(t: Token, ts: seq<Token>, s: string, g: seq<string>, rest: string)
    requires MatchToken(t, s) == Some((g, rest))
    ensures MatchTokens([t] + ts, s)
         == match MatchTokens(ts, rest) case None => None case Some((gs, r)) => Some((g + gs, r))
  {
    assert ([t] + ts)[1..] == ts;
  }

  lemma MatchConsFails(t: Token, ts: seq<Token>, s: string)
    requires MatchToken(t, s).None?
    ensures MatchTokens([t] + ts, s).None?
  {
  }

  /** The tail ` type,` of a plain member line. */
  lemma MatchPlainTail(typ: string)
    requires IsWord(typ)
    ensures MatchTokens([Spaces, Word, Lit(",")], " " + typ + ",") == Some(([typ], ""))
  {
    var s5 := ",";
    var s4 := typ + s5;
    assert " " + typ + "," == " " + s4;
    MatchLit(",", "");
    MatchCons(Lit(","), [], s5, [], "");
    assert [Lit(",")] + [] == [Lit(",")];
    MatchWordToken(typ, s5);
    MatchCons(Word, [Lit(",")], s4, [typ], s5);
    assert [typ] + [] == [typ] && [] + [typ] == [typ];
    assert [Word] + [Lit(",")] == [Word, Lit(",")];
    MatchOneSpace(s4);
    MatchCons(Spaces, [Word, Lit(",")], " " + s4, [], s4);
    assert [Spaces] + [Word, Lit(",")] == [Spaces, Word, Lit(",")];
  }

  /** The part ` : type,` of a plain member line. */
  lemma MatchPlainRest(typ: string)
    requires IsWord(typ)
    ensures MatchTokens([Spaces, Lit(":"), Spaces, Word, Lit(",")], " : " + typ + ",") == Some(([typ], ""))
  {
    var s3 := " " + typ + ",";
    var s2 := ":" + s3;
    assert " : " + typ + "," == " " + s2;
    var p3 := [Spaces, Word, Lit(",")];
    var p2 := [Lit(":")] + p3;
    assert [Spaces, Lit(":"), Spaces, Word, Lit(",")] == [Spaces] + p2;
    MatchPlainTail(typ);
    MatchLit(":", s3);
    MatchCons(Lit(":"), p3, s2, [], s3);
    assert MatchTokens(p2, s2) == Some(([] + [typ], ""));
    MatchOneSpace(s2);
    MatchCons(Spaces, p2, " " + s2, [], s2);
    assert [] + ([] + [typ]) == [typ];
  }

  lemma MatchPlainCanonical(name: string, typ: string)
    requires IsWord(name) && IsWord(typ)
    ensures MatchTokens(PROP_PLAIN, name + " : " + typ + ",") == Some(([name, typ], ""))
  {
    var s1 := " : " + typ + ",";
    var p1 := [Spaces, Lit(":"), Spaces, Word, Lit(",")];
    assert name + " : " + typ + "," == name + s1;
    assert PROP_PLAIN == [Word] + p1;
    MatchPlainRest(typ);
    MatchWordToken(name, s1);
    MatchCons(Word, p1, name + s1, [name], s1);
    assert [name] + [typ] == [name, typ];
  }

  /** The counted form fails at `[`, which such a line does not have after the type. */
  lemma MatchCountedFails(name: string, typ: string)
    requires IsWord(name) && IsWord(typ)
    ensures MatchTokens(PROP_COUNTED, name + " : " + typ + ",").None?
  {
    var s5 := ",";
    var s4 := typ + s5;
    var s3 := " " + s4;
    var s2 := ":" + s3;
    var s1 := " " + s2;
    assert name + " : " + typ + "," == name + s1;
    var q5 := [Lit("["), Digits, Lit("],")];
    var q4 := [Word] + q5;
    var q3 := [Spaces] + q4;
    var q2 := [Lit(":")] + q3;
    var q1 := [Spaces] + q2;
    assert PROP_COUNTED == [Word] + q1;
    MatchLitFails("[", s5);
    MatchConsFails(Lit("["), [Digits, Lit("],")], s5);
    MatchWordToken(typ, s5);
    MatchCons(Word, q5, s4, [typ], s5);
    MatchOneSpace(s4);
    MatchCons(Spaces, q4, s3, [], s4);
    MatchLit(":", s3);
    MatchCons(Lit(":"), q3, s2, [], s3);
    MatchOneSpace(s2);
    MatchCons(Spaces, q2, s1, [], s2);
    MatchWordToken(name, s1);
    MatchCons(Word, q1, name + s1, [name], s1);
  }

  /** A line written as `name : type,` is read back as that member. */
  lemma MatchPropDeclCanonical(name: string, typ: string)
    requires IsWord(name) && IsWord(typ)
    ensures MatchPropDecl(name + " : " + typ + ",") == Some(PropDecl(name, typ, None))
  {
    MatchPlainCanonical(name, typ);
    MatchCountedFails(name, typ);
  }

  /** A line written as `name :: struct {` is read back as a header for that name. */
  lemma MatchStructBeginCanonical(name: string)
    requires IsWord(name)
    ensures MatchStructBegin(name + " :: struct {") == Some(name)
  {
    var s6 := "{";
    var s5 := " " + s6;
    var s4 := "struct" + s5;
    var s3 := " " + s4;
    var s2 := "::" + s3;
    var s1 := " " + s2;
    assert name + " :: struct {" == name + s1;
    var p6 := [Lit("{")];
    var p5 := [Spaces] + p6;
    var p4 := [Lit("struct")] + p5;
    var p3 := [Spaces] + p4;
    var p2 := [Lit("::")] + p3;
    var p1 := [Spaces] + p2;
    assert STRUCT_DEF_BEGIN == [Word] + p1;
    MatchLit("{", "");
    MatchCons(Lit("{"), [], s6, [], "");
    MatchOneSpace(s6);
    MatchCons(Spaces, p6, s5, [], s6);
    MatchLit("struct", s5);
    MatchCons(Lit("struct"), p5, s4, [], s5);
    MatchOneSpace(s4);
    MatchCons(Spaces, p4, s3, [], s4);
    MatchLit("::", s3);
    MatchCons(Lit("::"), p3, s2, [], s3);
    MatchOneSpace(s2);
    MatchCons(Spaces, p2, s1, [], s2);
    MatchWordToken(name, s1);
    MatchCons(Word, p1, name + s1, [name], s1);
  }

  /** What is left of a line after a leading word and the spaces after it. */
  function AfterName(line: string): (r: Option<string>)
    ensures r.Some? ==> |r.value| <= |line|
  {
    match MatchToken(Word, line)
    case None => None
    case Some((_, r0)) => Some(r0[SpacePrefix(r0)..])
  }

  /** Any pattern that begins with a word and spaces matches through
      `AfterName`. */
  lemma MatchAfterName(line: string, ts: seq<Token>)
    ensures MatchTokens([Word] + ([Spaces] + ts), line).Some? ==>
      AfterName(line).Some? && MatchTokens(ts, AfterName(line).value).Some?
  {
    match MatchToken(Word, line)
    case None =>
      MatchConsFails(Word, [Spaces] + ts, line);
    case Some((g, r0)) =>
      var r1 := r0[SpacePrefix(r0)..];
      assert MatchToken(Spaces, r0) == Some(([], r1));
      MatchCons(Word, [Spaces] + ts, line, g, r0);
      MatchCons(Spaces, ts, r0, [], r1);
  }

  /** A header line continues with `::` after its name. */
  lemma HeaderAfterName(line: string)
    ensures MatchStructBegin(line).Some? ==> AfterName(line).Some? && StartsWith(AfterName(line).value, "::")
  {
    var h2 := [Spaces, Lit("struct"), Spaces, Lit("{")];
    assert STRUCT_DEF_BEGIN == [Word] + ([Spaces] + ([Lit("::")] + h2));
    MatchAfterName(line, [Lit("::")] + h2);
    if AfterName(line).Some? && !StartsWith(AfterName(line).value, "::") {
      MatchConsFails(Lit("::"), h2, AfterName(line).value);
    }
  }

  /** After `::`, a pattern `:\s*\w+…` meets a second `:`, which is neither a
      space nor a word character. */
  lemma ColonColonIsNotMember(r1: string, tail: seq<Token>)
    requires StartsWith(r1, "::")
    ensures MatchTokens([Lit(":")] + ([Spaces] + ([Word] + tail)), r1).None?
  {
    assert r1[1] == ':';
    var r2 := r1[1..];
    assert MatchToken(Lit(":"), r1) == Some(([], r2));
    assert SpacePrefix(r2) == 0;
    assert MatchToken(Spaces, r2) == Some(([], r2));
    assert MatchToken(Word, r2).None?;
    MatchConsFails(Word, tail, r2);
    MatchCons(Spaces, [Word] + tail, r2, [], r2);
    MatchCons(Lit(":"), [Spaces] + ([Word] + tail), r1, [], r2);
  }

  /** A member pattern with the given tail never matches a header line. */
  lemma HeaderIsNotMemberWith(line: string, tail: seq<Token>)
    requires MatchStructBegin(line).Some?
    ensures MatchTokens([Word] + ([Spaces] + ([Lit(":")] + ([Spaces] + ([Word] + tail)))), line).None?
  {
    HeaderAfterName(line);
    MatchAfterName(line, [Lit(":")] + ([Spaces] + ([Word] + tail)));
    ColonColonIsNotMember(AfterName(line).value, tail);
  }

  /** After the name and the spaces, a header continues with `::` and a member
      with `:` followed (after spaces) by a word; `:` is neither a space nor a
      word character, so no line is both. The member scan therefore never
      swallows the next struct's header. */
  lemma HeaderIsNotMember(line: string)
    ensures MatchStructBegin(line).Some? ==> MatchPropDecl(line).None?
  {
    if MatchStructBegin(line).Some? {
      var plain := [Lit(",")];
      var counted := [Lit("["), Digits, Lit("],")];
      assert PROP_PLAIN == [Word] + ([Spaces] + ([Lit(":")] + ([Spaces] + ([Word] + plain))));
      assert PROP_COUNTED == [Word] + ([Spaces] + ([Lit(":")] + ([Spaces] + ([Word] + counted))));
      HeaderIsNotMemberWith(line, plain);
      HeaderIsNotMemberWith(line, counted);
    }
  }

  // ----- parse_file -------------------------------------------------------

  function MemberOf(d: PropDecl, primitiveSizes: map<string, nat>): StructMember
  {
    match d.count
    case None => NewStructMember(d.name, d.typ, 1, primitiveSizes)
    case Some(c) => NewStructMember(d.name, d.typ, c, primitiveSizes)
  }

  /** What the two patterns say about one stripped line. */
  datatype LineKind = LineKind(header: Option<string>, member: Option<PropDecl>)

  function Classify(line: string): LineKind
  {
    LineKind(MatchStructBegin(Strip(line)), MatchPropDecl(Strip(line)))
  }

  function ClassifyAll(lines: seq<string>): (ks: seq<LineKind>)
    ensures |ks| == |lines|
  {
    if lines == [] then [] else [Classify(lines[0])] + ClassifyAll(lines[1..])
  }

  lemma {:induction false} ClassifyAllAt(lines: seq<string>, i: nat)
    requires i < |lines|
    ensures ClassifyAll(lines)[i] == Classify(lines[i])
  {
    if i > 0 {
      ClassifyAllAt(lines[1..], i - 1);
    }
  }

  /** `ks` classifies `lines`, line by line. */
  ghost predicate Classifies(lines: seq<string>, ks: seq<LineKind>)
  {
    |ks| == |lines| && forall i {:trigger Classify(lines[i])} :: 0 <= i < |lines| ==> ks[i] == Classify(lines[i])
  }

  lemma ClassifyAllClassifies(lines: seq<string>)
    ensures Classifies(lines, ClassifyAll(lines))
  {
    forall i | 0 <= i < |lines|
      ensures ClassifyAll(lines)[i] == Classify(lines[i])
    {
      ClassifyAllAt(lines, i);
    }
  }

  /** No line is classified as both a header and a member. */
  ghost predicate Consistent(ks: seq<LineKind>)
  {
    forall i :: 0 <= i < |ks| ==> ks[i].header.None? || ks[i].member.None?
  }

  lemma ClassifyAllConsistent(lines: seq<string>)
    ensures Consistent(ClassifyAll(lines))
  {
    forall i | 0 <= i < |lines|
      ensures ClassifyAll(lines)[i].header.None? || ClassifyAll(lines)[i].member.None?
    {
      ClassifyAllAt(lines, i);
      HeaderIsNotMember(Strip(lines[i]));
    }
  }

  /** The member scan that starts at line j: the members of the consecutive
      member lines, and the index of the first line that is not one. Running
      off the end of the file is Python's IndexError. */
  function MembersFrom(ks: seq<LineKind>, j: nat, primitiveSizes: map<string, nat>): (r: Result<(seq<StructMember>, nat), Error>)
    requires j <= |ks|
    decreases |ks| - j
    ensures r.Ok? ==> j <= r.value.1 < |ks|
  {
    if j == |ks| then Err(IndexError)
    else
      match ks[j].member
      case None => Ok(([], j))
      case Some(d) =>
        match MembersFrom(ks, j + 1, primitiveSizes)
        case Err(e) => Err(e)
        case Ok((ms, k)) => Ok(([MemberOf(d, primitiveSizes)] + ms, k))
  }

  /** The scan fails, with IndexError, exactly when every line from j on is a
      member line; otherwise it stops at the first line that is not one,
      and the members are those of the lines before it, in order. */
  lemma {:induction false} MembersFromSpec(ks: seq<LineKind>, j: nat, primitiveSizes: map<string, nat>)
    requires j <= |ks|
    decreases |ks| - j
    ensures var r := MembersFrom(ks, j, primitiveSizes);
      && (r.Err? ==> r.error == IndexError)
      && (r.Err? <==> forall t :: j <= t < |ks| ==> ks[t].member.Some?)
      && (r.Ok? ==> |r.value.0| == r.value.1 - j && ks[r.value.1].member.None?)
      && (r.Ok? ==> forall t :: j <= t < r.value.1 ==> ks[t].member.Some?)
      && (r.Ok? ==> forall t :: 0 <= t < |r.value.0| ==>
            ks[j + t].member.Some? && r.value.0[t] == MemberOf(ks[j + t].member.value, primitiveSizes))
  {
    if j < |ks| && ks[j].member.Some? {
      MembersFromSpec(ks, j + 1, primitiveSizes);
      var r := MembersFrom(ks, j, primitiveSizes);
      if r.Ok? {
        var rest := MembersFrom(ks, j + 1, primitiveSizes).value.0;
        assert r.value.0 == [MemberOf(ks[j].member.value, primitiveSizes)] + rest;
        forall t | 0 <= t < |r.value.0|
          ensures ks[j + t].member.Some? && r.value.0[t] == MemberOf(ks[j + t].member.value, primitiveSizes)
        {
          if t > 0 {
            assert r.value.0[t] == rest[t - 1];
            assert j + t == (j + 1) + (t - 1);
          }
        }
      }
    }
  }

  /** `parse_file` from line i on. */
  function ParseFrom(ks: seq<LineKind>, i: nat, primitiveSizes: map<string, nat>): Result<seq<Struct>, Error>
    requires i <= |ks|
    decreases |ks| - i
  {
    if i == |ks| then Ok([])
    else
      match ks[i].header
      case None => ParseFrom(ks, i + 1, primitiveSizes)
      case Some(name) =>
        match MembersFrom(ks, i + 1, primitiveSizes)
        case Err(e) => Err(e)
        case Ok((ms, k)) => PrependStructs([Struct(name, ms)], ParseFrom(ks, k, primitiveSizes))
  }

  function PrependStructs(xs: seq<Struct>, r: Result<seq<Struct>, Error>): Result<seq<Struct>, Error>
  {
    match r
    case Ok(ys) => Ok(xs + ys)
    case Err(e) => Err(e)
  }

  function PrependMembers(xs: seq<StructMember>, r: Result<(seq<StructMember>, nat), Error>): Result<(seq<StructMember>, nat), Error>
  {
    match r
    case Ok((ys, k)) => Ok((xs + ys, k))
    case Err(e) => Err(e)
  }

  lemma PrependMembersStep(xs: seq<StructMember>, m: StructMember, r: Result<(seq<StructMember>, nat), Error>)
    ensures PrependMembers(xs, PrependMembers([m], r)) == PrependMembers(xs + [m], r)
  {
    match r
    case Ok((ys, k)) => assert xs + ([m] + ys) == (xs + [m]) + ys;
    case Err(e) =>
  }

  lemma PrependNil(rm: Result<(seq<StructMember>, nat), Error>, rs: Result<seq<Struct>, Error>)
    ensures PrependMembers([], rm) == rm && PrependStructs([], rs) == rs
  {
    if rm.Ok? {
      assert [] + rm.value.0 == rm.value.0;
    }
    if rs.Ok? {
      assert [] + rs.value == rs.value;
    }
  }

  lemma PrependStructsStep(xs: seq<Struct>, st: Struct, r: Result<seq<Struct>, Error>)
    ensures PrependStructs(xs, PrependStructs([st], r)) == PrependStructs(xs + [st], r)
  {
    match r
    case Ok(ys) => assert xs + ([st] + ys) == (xs + [st]) + ys;
    case Err(e) =>
  }

  /** One header line: its struct is prepended to the parse of the rest, or
      its member scan's error is the parse's. */
  lemma ParseFromHeaderStep(ks: seq<LineKind>, i: nat, primitiveSizes: map<string, nat>)
    requires i < |ks| && ks[i].header.Some?
    ensures MembersFrom(ks, i + 1, primitiveSizes).Err? ==>
      ParseFrom(ks, i, primitiveSizes) == Err(MembersFrom(ks, i + 1, primitiveSizes).error)
    ensures MembersFrom(ks, i + 1, primitiveSizes).Ok? ==>
      var m := MembersFrom(ks, i + 1, primitiveSizes).value;
      ParseFrom(ks, i, primitiveSizes) == PrependStructs([Struct(ks[i].header.value, m.0)], ParseFrom(ks, m.1, primitiveSizes))
  {
  }

  /** `parse_file`: the outer loop looks for struct headers; after one, the
      inner loop collects member lines and stops at the first other line,
      which the outer loop then examines again. */
  method ParseFile(lines: seq<string>, primitiveSizes: map<string, nat>) returns (r: Result<seq<Struct>, Error>)
    ensures r == ParseFrom(ClassifyAll(lines), 0, primitiveSizes)
  {
    ClassifyAllClassifies(lines);
    r := ParseLines(lines, ClassifyAll(lines), primitiveSizes);
  }

  /** The loops of `parse_file` over lines that `ks` classifies. */
  method ParseLines(lines: seq<string>, ghost ks: seq<LineKind>, primitiveSizes: map<string, nat>) returns (r: Result<seq<Struct>, Error>)
    requires Classifies(lines, ks)
    ensures r == ParseFrom(ks, 0, primitiveSizes)
  {
    var i := 0;
    var structs: seq<Struct> := [];
    PrependNil(Ok(([], 0)), ParseFrom(ks, 0, primitiveSizes));
    while i < |lines|
      invariant 0 <= i <= |lines|
      invariant ParseFrom(ks, 0, primitiveSizes) == PrependStructs(structs, ParseFrom(ks, i, primitiveSizes))
      decreases |lines| - i
    {
      var header := LineHeader(lines, ks, i);
      if header.Some? {
        var scanned := CollectMembers(lines, ks, i + 1, primitiveSizes);
        ParseFromHeaderStep(ks, i, primitiveSizes);
        if scanned.Err? {
          return Err(scanned.error);
        }
        PrependStructsStep(structs, Struct(header.value, scanned.value.0), ParseFrom(ks, scanned.value.1, primitiveSizes));
        structs := structs + [Struct(header.value, scanned.value.0)];
        i := scanned.value.1;
        continue;
      }
      i := i + 1;
    }
    assert structs + [] == structs;
    return Ok(structs);
  }

  /** The inner loop of `parse_file`, from line i: the members and the index
      of the line that ended the run. */
  method CollectMembers(lines: seq<string>, ghost ks: seq<LineKind>, i: nat, primitiveSizes: map<string, nat>)
    returns (r: Result<(seq<StructMember>, nat), Error>)
    requires Classifies(lines, ks) && i <= |lines|
    ensures r == MembersFrom(ks, i, primitiveSizes)
  {
    var k := i;
    var members: seq<StructMember> := [];
    PrependNil(MembersFrom(ks, i, primitiveSizes), Ok([]));
    while true
      invariant i <= k <= |lines|
      invariant MembersFrom(ks, i, primitiveSizes) == PrependMembers(members, MembersFrom(ks, k, primitiveSizes))
      decreases |lines| - k
    {
      if k == |lines| {
        return Err(IndexError);
      }
      var decl := LineMember(lines, ks, k);
      if decl.None? {
        assert members + [] == members;
        break;
      }
      PrependMembersStep(members, MemberOf(decl.value, primitiveSizes), MembersFrom(ks, k + 1, primitiveSizes));
      members := members + [MemberOf(decl.value, primitiveSizes)];
      k := k + 1;
    }
    return Ok((members, k));
  }

  /** `STRUCT_DEF_BEGIN.match(line.strip())` on line i. */
  method LineHeader(lines: seq<string>, ghost ks: seq<LineKind>, i: nat) returns (header: Option<string>)
    requires Classifies(lines, ks) && i < |lines|
    ensures header == ks[i].header
  {
    header := MatchStructBegin(Strip(lines[i]));
    assert ks[i] == Classify(lines[i]);
  }

  /** `STRUCT_PROP_DECL.match(line.strip())` on line k. */
  method LineMember(lines: seq<string>, ghost ks: seq<LineKind>, k: nat) returns (decl: Option<PropDecl>)
    requires Classifies(lines, ks) && k < |lines|
    ensures decl == ks[k].member
  {
    decl := MatchPropDecl(Strip(lines[k]));
    assert ks[k] == Classify(lines[k]);
  }

  /** The names on the struct header lines from line i on, in order. */
  function HeaderNames(ks: seq<LineKind>, i: nat): seq<string>
    requires i <= |ks|
    decreases |ks| - i
  {
    if i == |ks| then []
    else
      var rest := HeaderNames(ks, i + 1);
      match ks[i].header
      case None => rest
      case Some(name) => [name] + rest
  }

  function StructNames(structs: seq<Struct>): (names: seq<string>)
    ensures |names| == |structs| && forall i :: 0 <= i < |structs| ==> names[i] == structs[i].name
  {
    seq(|structs|, i requires 0 <= i < |structs| => structs[i].name)
  }

  lemma {:induction false} MemberLinesHaveNoHeaders(ks: seq<LineKind>, j: nat, k: nat)
    requires j <= k <= |ks| && Consistent(ks)
    requires forall t :: j <= t < k ==> ks[t].member.Some?
    ensures HeaderNames(ks, j) == HeaderNames(ks, k)
    decreases k - j
  {
    if j < k {
      MemberLinesHaveNoHeaders(ks, j + 1, k);
    }
  }

  /** `parse_file` yields one struct per header line, in file order. */
  lemma {:induction false} ParseFromHeaders(ks: seq<LineKind>, i: nat, primitiveSizes: map<string, nat>)
    requires i <= |ks| && Consistent(ks)
    ensures ParseFrom(ks, i, primitiveSizes).Ok? ==>
      StructNames(ParseFrom(ks, i, primitiveSizes).value) == HeaderNames(ks, i)
    decreases |ks| - i
  {
    if i < |ks| {
      match ks[i].header
      case None =>
        ParseFromHeaders(ks, i + 1, primitiveSizes);
      case Some(name) =>
        var m := MembersFrom(ks, i + 1, primitiveSizes);
        if m.Ok? {
          var k := m.value.1;
          MembersFromSpec(ks, i + 1, primitiveSizes);
          MemberLinesHaveNoHeaders(ks, i + 1, k);
          ParseFromHeaders(ks, k, primitiveSizes);
          var r := ParseFrom(ks, k, primitiveSizes);
          if r.Ok? {
            assert StructNames([Struct(name, m.value.0)] + r.value) == [name] + StructNames(r.value);
          }
        }
    }
  }

  /** The parse fails exactly when some header's member lines run to the end
      of the file: checked here for the first header. */
  lemma ParseFromFirstHeader(ks: seq<LineKind>, i: nat, primitiveSizes: map<string, nat>)
    requires i < |ks| && ks[i].header.Some?
    ensures (forall t :: i + 1 <= t < |ks| ==> ks[t].member.Some?) ==> ParseFrom(ks, i, primitiveSizes) == Err(IndexError)
  {
    if forall t :: i + 1 <= t < |ks| ==> ks[t].member.Some? {
      MembersFromSpec(ks, i + 1, primitiveSizes);
      assert MembersFrom(ks, i + 1, primitiveSizes).Err?;
    }
  }

  // ----- create_mapping ---------------------------------------------------

  /** A `MappingVariableProperty` wrapping a `MappingVariableArbitrary`:
      an index into the size table, a name (empty for a nested struct) and
      the properties nested under it. */
  datatype Property = Property(index: nat, name: string, next: seq<Property>)

  datatype MappingFile = MappingFile(sizes: seq<nat>, properties: seq<Property>)

  /** What a scan appends: the sizes, and the properties it returns. */
  datatype Scan = Scan(sizes: seq<nat>, properties: seq<Property>)

  /** The first struct of the given name (`member_is_struct` and the for/else lookup). */
  function FindStruct(structs: seq<Struct>, name: string): (r: Option<Struct>)
    ensures r.Some? ==> r.value in structs && r.value.name == name
    ensures r.None? <==> forall i :: 0 <= i < |structs| ==> structs[i].name != name
  {
    if structs == [] then None
    else if structs[0].name == name then Some(structs[0])
    else FindStruct(structs[1..], name)
  }

  function Glue(acc: Scan, r: Result<Scan, Error>): Result<Scan, Error>
  {
    match r
    case Ok(s) => Ok(Scan(acc.sizes + s.sizes, acc.properties + s.properties))
    case Err(e) => Err(e)
  }

  lemma GlueNil(r: Result<Scan, Error>)
    ensures Glue(Scan([], []), r) == r
  {
    if r.Ok? {
      assert [] + r.value.sizes == r.value.sizes && [] + r.value.properties == r.value.properties;
    }
  }

  lemma GlueDone(acc: Scan)
    ensures Glue(acc, Ok(Scan([], []))) == Ok(acc)
  {
    assert acc.sizes + [] == acc.sizes && acc.properties + [] == acc.properties;
  }

  lemma GlueStep(acc: Scan, h: Scan, r: Result<Scan, Error>)
    ensures Glue(acc, Glue(h, r)) == Glue(Scan(acc.sizes + h.sizes, acc.properties + h.properties), r)
  {
    if r.Ok? {
      assert acc.sizes + (h.sizes + r.value.sizes) == (acc.sizes + h.sizes) + r.value.sizes;
      assert acc.properties + (h.properties + r.value.properties) == (acc.properties + h.properties) + r.value.properties;
    }
  }

  /** `variable_scan_recursive` over a list of members. Every property it
      makes gets index `sizes_index`, which stays 0. The fuel bounds the
      nesting depth; running out of it stands for Python's `RecursionError`. */
  function ScanMembers(structs: seq<Struct>, members: seq<StructMember>, fuel: nat): Result<Scan, Error>
    decreases fuel, |members|
  {
    if members == [] then Ok(Scan([], []))
    else
      var m := members[0];
      var head: Result<Scan, Error> :=
        if m.primitive.Some? then Ok(Scan([m.primitive.value.size], [Property(0, m.name, [])]))
        else
          match FindStruct(structs, m.typ)
          case None => Err(MemberNotResolved(m.name))
          case Some(st) =>
            if fuel == 0 then Err(RecursionLimit)
            else
              match ScanMembers(structs, st.members, fuel - 1)
              case Err(e) => Err(e)
              case Ok(inner) => Ok(Scan(inner.sizes, [Property(0, "", inner.properties)]));
      match head
      case Err(e) => Err(e)
      case Ok(h) => Glue(h, ScanMembers(structs, members[1..], fuel))
  }

  /** The main loop of `create_mapping` over the target's members; `before` is
      the length of the size table when the loop reaches `members[0]`. */
  function TopLevel(structs: seq<Struct>, members: seq<StructMember>, fuel: nat, before: nat): Result<Scan, Error>
    decreases |members|
  {
    if members == [] then Ok(Scan([], []))
    else
      var m := members[0];
      var head: Result<Scan, Error> :=
        if m.primitive.Some? then Ok(Scan([m.primitive.value.size], [Property(before, m.name, [])]))
        else
          match FindStruct(structs, m.typ)
          case None => Err(DefinitionNotFound(m.name, m.typ))
          case Some(st) => ScanMembers(structs, st.members, fuel);
      match head
      case Err(e) => Err(e)
      case Ok(h) => Glue(h, TopLevel(structs, members[1..], fuel, before + |h.sizes|))
  }

  function Mapping(structs: seq<Struct>, target: Struct, fuel: nat): Result<MappingFile, Error>
  {
    match TopLevel(structs, target.members, fuel, 0)
    case Ok(s) => Ok(MappingFile(s.sizes, s.properties))
    case Err(e) => Err(e)
  }

  /** `variable_scan`: appends the member's size, returns its property. */
  method VariableScan(member: StructMember, sizesIndex: nat, sizes: seq<nat>) returns (sizes': seq<nat>, p: Property)
    requires member.primitive.Some?
    ensures sizes' == sizes + [member.primitive.value.size]
    ensures p == Property(sizesIndex, member.name, [])
  {
    sizes' := sizes + [member.primitive.value.size];
    p := Property(sizesIndex, member.name, []);
  }

  /** `variable_scan_recursive`: the closure's appends to `sizes` show up as
      the returned table. */
  method VariableScanRecursive(structs: seq<Struct>, st: Struct, fuel: nat, sizes: seq<nat>)
    returns (sizes': seq<nat>, r: Result<seq<Property>, Error>)
    ensures ScanMembers(structs, st.members, fuel).Err? ==> r.Err? && r.error == ScanMembers(structs, st.members, fuel).error
    ensures ScanMembers(structs, st.members, fuel).Ok? ==>
      r.Ok? && sizes' == sizes + ScanMembers(structs, st.members, fuel).value.sizes
      && r.value == ScanMembers(structs, st.members, fuel).value.properties
    decreases fuel, 0
  {
    var sizesIndex := 0;
    sizes' := sizes;
    var props: seq<Property> := [];
    var k := 0;
    assert st.members[0..] == st.members && sizes'[|sizes|..] == [];
    GlueNil(ScanMembers(structs, st.members, fuel));
    while k < |st.members|
      invariant 0 <= k <= |st.members|
      invariant |sizes| <= |sizes'| && sizes'[..|sizes|] == sizes
      invariant ScanMembers(structs, st.members, fuel)
             == Glue(Scan(sizes'[|sizes|..], props), ScanMembers(structs, st.members[k..], fuel))
    {
      var member := st.members[k];
      assert st.members[k..][0] == member && st.members[k..][1..] == st.members[k + 1..];
      ghost var acc := Scan(sizes'[|sizes|..], props);
      ghost var tail := ScanMembers(structs, st.members[k + 1..], fuel);
      ghost var before := sizes';
      ghost var h: Scan;
      if member.primitive.Some? {
        var p;
        sizes', p := VariableScan(member, sizesIndex, sizes');
        props := props + [p];
        h := Scan([member.primitive.value.size], [p]);
      } else {
        var found := FindStruct(structs, member.typ);
        if found.None? {
          return sizes', Err(MemberNotResolved(member.name));
        }
        if fuel == 0 {
          return sizes', Err(RecursionLimit);
        }
        var inner;
        sizes', inner := VariableScanRecursive(structs, found.value, fuel - 1, sizes');
        if inner.Err? {
          return sizes', Err(inner.error);
        }
        props := props + [Property(sizesIndex, "", inner.value)];
        h := Scan(ScanMembers(structs, found.value.members, fuel - 1).value.sizes, [Property(sizesIndex, "", inner.value)]);
      }
      assert ScanMembers(structs, st.members[k..], fuel) == Glue(h, tail);
      GlueStep(acc, h, tail);
      assert sizes'[|sizes|..] == acc.sizes + h.sizes;
      k := k + 1;
    }
    assert st.members[k..] == [];
    GlueDone(Scan(sizes'[|sizes|..], props));
    assert sizes' == sizes + sizes'[|sizes|..];
    r := Ok(props);
  }

  /** `create_mapping`. */
  method CreateMapping(structs: seq<Struct>, target: Struct, fuel: nat) returns (r: Result<MappingFile, Error>)
    ensures r == Mapping(structs, target, fuel)
  {
    var sizes: seq<nat> := [];
    var properties: seq<Property> := [];
    var k := 0;
    assert target.members[0..] == target.members;
    GlueNil(TopLevel(structs, target.members, fuel, 0));
    while k < |target.members|
      invariant 0 <= k <= |target.members|
      invariant TopLevel(structs, target.members, fuel, 0)
             == Glue(Scan(sizes, properties), TopLevel(structs, target.members[k..], fuel, |sizes|))
    {
      var member := target.members[k];
      assert target.members[k..][0] == member && target.members[k..][1..] == target.members[k + 1..];
      ghost var acc := Scan(sizes, properties);
      ghost var h: Scan;
      if member.primitive.Some? {
        h := Scan([member.primitive.value.size], [Property(|sizes|, member.name, [])]);
        sizes := sizes + [member.primitive.value.size];
        properties := properties + [Property(|sizes| - 1, member.name, [])];
      } else {
        var found := FindStruct(structs, member.typ);
        if found.None? {
          return Err(DefinitionNotFound(member.name, member.typ));
        }
        var scanned;
        sizes, scanned := VariableScanRecursive(structs, found.value, fuel, sizes);
        if scanned.Err? {
          return Err(scanned.error);
        }
        h := ScanMembers(structs, found.value.members, fuel).value;
        properties := properties + scanned.value;
      }
      assert TopLevel(structs, target.members[k..], fuel, |acc.sizes|)
          == Glue(h, TopLevel(structs, target.members[k + 1..], fuel, |acc.sizes| + |h.sizes|));
      GlueStep(acc, h, TopLevel(structs, target.members[k + 1..], fuel, |acc.sizes| + |h.sizes|));
      k := k + 1;
    }
    assert target.members[k..] == [];
    GlueDone(Scan(sizes, properties));
    r := Ok(MappingFile(sizes, properties));
  }

  // ----- the fuel bound ------------------------------------------------------------

  /** More fuel never changes a scan that did not run out of it. */
  lemma {:induction false} ScanFuelMonotone(structs: seq<Struct>, members: seq<StructMember>, f: nat, g: nat)
    requires f <= g && ScanMembers(structs, members, f) != Err(RecursionLimit)
    ensures ScanMembers(structs, members, g) == ScanMembers(structs, members, f)
    decreases f, |members|
  {
    if members != [] {
      var m := members[0];
      if m.primitive.None? && FindStruct(structs, m.typ).Some? && f > 0 {
        var st := FindStruct(structs, m.typ).value;
        if ScanMembers(structs, st.members, f - 1) != Err(RecursionLimit) {
          ScanFuelMonotone(structs, st.members, f - 1, g - 1);
        }
      }
      if ScanMembers(structs, members[1..], f) != Err(RecursionLimit) {
        ScanFuelMonotone(structs, members[1..], f, g);
      }
    }
  }

  lemma {:induction false} TopLevelFuelMonotone(structs: seq<Struct>, members: seq<StructMember>, f: nat, g: nat, before: nat)
    requires f <= g && TopLevel(structs, members, f, before) != Err(RecursionLimit)
    ensures TopLevel(structs, members, g, before) == TopLevel(structs, members, f, before)
    decreases |members|
  {
    if members != [] {
      var m := members[0];
      if m.primitive.Some? {
        if TopLevel(structs, members[1..], f, before + 1) != Err(RecursionLimit) {
          TopLevelFuelMonotone(structs, members[1..], f, g, before + 1);
        }
      } else if FindStruct(structs, m.typ).Some? {
        var inner := ScanMembers(structs, FindStruct(structs, m.typ).value.members, f);
        if inner != Err(RecursionLimit) {
          ScanFuelMonotone(structs, FindStruct(structs, m.typ).value.members, f, g);
          if inner.Ok? && TopLevel(structs, members[1..], f, before + |inner.value.sizes|) != Err(RecursionLimit) {
            TopLevelFuelMonotone(structs, members[1..], f, g, before + |inner.value.sizes|);
          }
        }
      }
    }
  }

  /** A mapping that did not run out of fuel is the mapping for every larger fuel. */
  lemma MappingFuelMonotone(structs: seq<Struct>, target: Struct, f: nat, g: nat)
    requires f <= g && Mapping(structs, target, f) != Err(RecursionLimit)
    ensures Mapping(structs, target, g) == Mapping(structs, target, f)
  {
    TopLevelFuelMonotone(structs, target.members, f, g, 0);
  }

  /** Some member of the list is of the struct type `name`. */
  ghost predicate HasStructMember(members: seq<StructMember>, name: string)
  {
    exists k :: 0 <= k < |members| && members[k].primitive.None? && members[k].typ == name
  }

  /** Every name is a parsed struct, and each has a member of the next one's type. */
  ghost predicate Chain(structs: seq<Struct>, p: seq<string>)
  {
    (forall i :: 0 <= i < |p| ==> FindStruct(structs, p[i]).Some?)
    && forall i :: 0 <= i < |p| - 1 ==> HasStructMember(FindStruct(structs, p[i]).value.members, p[i + 1])
  }

  ghost predicate Repeats(p: seq<string>)
  {
    exists i, j :: 0 <= i < j < |p| && p[i] == p[j]
  }

  /** Some struct holds, through a chain of nested members, a member of its own type. */
  ghost predicate SelfNesting(structs: seq<Struct>)
  {
    exists p :: Chain(structs, p) && Repeats(p)
  }

  /** The struct types a scan enters on its way to the point where the fuel runs out. */
  ghost function LimitPath(structs: seq<Struct>, members: seq<StructMember>, fuel: nat): seq<string>
    decreases fuel, |members|
  {
    if members == [] then []
    else
      var m := members[0];
      if m.primitive.Some? then LimitPath(structs, members[1..], fuel)
      else
        match FindStruct(structs, m.typ)
        case None => []
        case Some(st) =>
          if fuel == 0 then [m.typ]
          else if ScanMembers(structs, st.members, fuel - 1).Err? then [m.typ] + LimitPath(structs, st.members, fuel - 1)
          else LimitPath(structs, members[1..], fuel)
  }

  lemma ChainCons(structs: seq<Struct>, members: seq<StructMember>, name: string, p: seq<string>)
    requires FindStruct(structs, name).Some? && FindStruct(structs, name).value.members == members
    requires Chain(structs, p) && p != [] && HasStructMember(members, p[0])
    ensures Chain(structs, [name] + p)
  {
    var q := [name] + p;
    forall i | 0 <= i < |q| ensures FindStruct(structs, q[i]).Some? {
      if i > 0 { assert q[i] == p[i - 1]; }
    }
    forall i | 0 <= i < |q| - 1 ensures HasStructMember(FindStruct(structs, q[i]).value.members, q[i + 1]) {
      if i > 0 { assert q[i] == p[i - 1] && q[i + 1] == p[i]; }
    }
  }

  /** A scan that runs out of fuel `f` has entered `f + 1` nested struct types,
      the first a member type of the list, each a member type of the one before. */
  lemma {:induction false} LimitPathShape(structs: seq<Struct>, members: seq<StructMember>, fuel: nat)
    requires ScanMembers(structs, members, fuel) == Err(RecursionLimit)
    ensures var p := LimitPath(structs, members, fuel);
      |p| == fuel + 1 && HasStructMember(members, p[0]) && Chain(structs, p)
    decreases fuel, |members|
  {
    var m := members[0];
    var rest := members[1..];
    if m.primitive.Some? {
      LimitPathShape(structs, rest, fuel);
      var k :| 0 <= k < |rest| && rest[k].primitive.None? && rest[k].typ == LimitPath(structs, rest, fuel)[0];
      assert members[k + 1] == rest[k];
    } else {
      var st := FindStruct(structs, m.typ).value;
      if fuel == 0 {
        assert members[0].typ == m.typ;
      } else if ScanMembers(structs, st.members, fuel - 1).Err? {
        LimitPathShape(structs, st.members, fuel - 1);
        ChainCons(structs, st.members, m.typ, LimitPath(structs, st.members, fuel - 1));
        assert members[0].typ == m.typ;
      } else {
        LimitPathShape(structs, rest, fuel);
        var k :| 0 <= k < |rest| && rest[k].primitive.None? && rest[k].typ == LimitPath(structs, rest, fuel)[0];
        assert members[k + 1] == rest[k];
      }
    }
  }

  /** The names of the parsed structs. */
  ghost function Names(structs: seq<Struct>): set<string>
  {
    if structs == [] then {} else {structs[0].name} + Names(structs[1..])
  }

  lemma {:induction false} NamesBound(structs: seq<Struct>)
    ensures |Names(structs)| <= |structs|
  {
    if structs != [] {
      NamesBound(structs[1..]);
    }
  }

  /** A name the lookup finds is one of the names. */
  lemma {:induction false} NameFound(structs: seq<Struct>, name: string)
    requires FindStruct(structs, name).Some?
    ensures name in Names(structs)
  {
    if structs[0].name != name {
      NameFound(structs[1..], name);
    }
  }

  /** A sequence longer than the set it draws from repeats an element. */
  lemma {:induction false} Pigeonhole(p: seq<string>, s: set<string>)
    requires forall i :: 0 <= i < |p| ==> p[i] in s
    requires |p| > |s|
    ensures Repeats(p)
    decreases |p|
  {
    var x := p[0];
    if j :| 1 <= j < |p| && p[j] == x {
      assert 0 < j && p[0] == p[j];
    } else {
      var t := p[1..];
      forall i | 0 <= i < |t| ensures t[i] in s - {x} {
        assert t[i] == p[i + 1];
      }
      Pigeonhole(t, s - {x});
      var i, j :| 0 <= i < j < |t| && t[i] == t[j];
      assert p[i + 1] == p[j + 1];
    }
  }

  /** With at least as much fuel as there are parsed structs, a scan runs out
      of fuel only when some struct is nested in itself. */
  lemma ScanLimitMeansSelfNesting(structs: seq<Struct>, members: seq<StructMember>, fuel: nat)
    requires |structs| <= fuel && ScanMembers(structs, members, fuel) == Err(RecursionLimit)
    ensures SelfNesting(structs)
  {
    LimitPathShape(structs, members, fuel);
    var p := LimitPath(structs, members, fuel);
    NamesBound(structs);
    forall i | 0 <= i < |p| ensures p[i] in Names(structs) {
      NameFound(structs, p[i]);
    }
    Pigeonhole(p, Names(structs));
  }

  lemma {:induction false} TopLevelLimitMeansSelfNesting(structs: seq<Struct>, members: seq<StructMember>, fuel: nat, before: nat)
    requires |structs| <= fuel && TopLevel(structs, members, fuel, before) == Err(RecursionLimit)
    ensures SelfNesting(structs)
    decreases |members|
  {
    var m := members[0];
    if m.primitive.Some? {
      TopLevelLimitMeansSelfNesting(structs, members[1..], fuel, before + 1);
    } else {
      var inner := ScanMembers(structs, FindStruct(structs, m.typ).value.members, fuel);
      if inner.Err? {
        ScanLimitMeansSelfNesting(structs, FindStruct(structs, m.typ).value.members, fuel);
      } else {
        TopLevelLimitMeansSelfNesting(structs, members[1..], fuel, before + |inner.value.sizes|);
      }
    }
  }

  /** The same for the whole mapping: with fuel `|structs|` it fails for lack
      of fuel only on a self-nesting struct, and by `MappingFuelMonotone`
      every other result is the one any larger fuel gives. */
  lemma MappingLimitMeansSelfNesting(structs: seq<Struct>, target: Struct, fuel: nat)
    requires |structs| <= fuel && Mapping(structs, target, fuel) == Err(RecursionLimit)
    ensures SelfNesting(structs)
  {
    TopLevelLimitMeansSelfNesting(structs, target.members, fuel, 0);
  }

  /** Every index in a property tree is 0. */
  ghost predicate AllIndexZero(ps: seq<Property>)
  {
    forall i :: 0 <= i < |ps| ==> ps[i].index == 0 && AllIndexZero(ps[i].next)
  }

  lemma AllIndexZeroAppend(a: seq<Property>, b: seq<Property>)
    requires AllIndexZero(a) && AllIndexZero(b)
    ensures AllIndexZero(a + b)
  {
    forall i | 0 <= i < |a + b|
      ensures (a + b)[i].index == 0 && AllIndexZero((a + b)[i].next)
    {
      if i < |a| { assert (a + b)[i] == a[i]; } else { assert (a + b)[i] == b[i - |a|]; }
    }
  }

  /** Nested entries always get index 0, because `sizes_index` never changes. */
  lemma {:induction false} NestedIndexZero(structs: seq<Struct>, members: seq<StructMember>, fuel: nat)
    ensures ScanMembers(structs, members, fuel).Ok? ==> AllIndexZero(ScanMembers(structs, members, fuel).value.properties)
    decreases fuel, |members|
  {
    if members != [] && ScanMembers(structs, members, fuel).Ok? {
      var m := members[0];
      NestedIndexZero(structs, members[1..], fuel);
      var rest := ScanMembers(structs, members[1..], fuel).value.properties;
      if m.primitive.Some? {
        AllIndexZeroAppend([Property(0, m.name, [])], rest);
      } else {
        var st := FindStruct(structs, m.typ).value;
        NestedIndexZero(structs, st.members, fuel - 1);
        var inner := ScanMembers(structs, st.members, fuel - 1).value.properties;
        assert AllIndexZero([Property(0, "", inner)]);
        AllIndexZeroAppend([Property(0, "", inner)], rest);
      }
    }
  }

  /** The primitive leaves reached from a member list, depth first: the
      reference for what the size table holds. */
  function Leaves(structs: seq<Struct>, members: seq<StructMember>, fuel: nat): Option<seq<Primitive>>
    decreases fuel, |members|
  {
    if members == [] then Some([])
    else
      var m := members[0];
      var head: Option<seq<Primitive>> :=
        if m.primitive.Some? then Some([m.primitive.value])
        else
          match FindStruct(structs, m.typ)
          case None => None
          case Some(st) => if fuel == 0 then None else Leaves(structs, st.members, fuel - 1);
      match (head, Leaves(structs, members[1..], fuel))
      case (Some(h), Some(t)) => Some(h + t)
      case _ => None
  }

  function SizesOf(ps: seq<Primitive>): (r: seq<nat>)
    ensures |r| == |ps| && forall i :: 0 <= i < |ps| ==> r[i] == ps[i].size
  {
    seq(|ps|, i requires 0 <= i < |ps| => ps[i].size)
  }

  /** The size table lists the sizes of the primitive leaves in depth-first
      member order, and a scan fails exactly when the leaves cannot be reached. */
  lemma {:induction false} ScanSizesAreLeaves(structs: seq<Struct>, members: seq<StructMember>, fuel: nat)
    ensures ScanMembers(structs, members, fuel).Ok? <==> Leaves(structs, members, fuel).Some?
    ensures ScanMembers(structs, members, fuel).Ok? ==>
      ScanMembers(structs, members, fuel).value.sizes == SizesOf(Leaves(structs, members, fuel).value)
    decreases fuel, |members|
  {
    if members != [] {
      var m := members[0];
      ScanSizesAreLeaves(structs, members[1..], fuel);
      if m.primitive.None? {
        var f := FindStruct(structs, m.typ);
        if f.Some? && fuel > 0 {
          ScanSizesAreLeaves(structs, f.value.members, fuel - 1);
        }
      }
      var l := Leaves(structs, members, fuel);
      if l.Some? {
        var h := if m.primitive.Some? then [m.primitive.value] else Leaves(structs, FindStruct(structs, m.typ).value.members, fuel - 1).value;
        var t := Leaves(structs, members[1..], fuel).value;
        assert l.value == h + t;
        assert SizesOf(h + t) == SizesOf(h) + SizesOf(t);
      }
    }
  }

  function Primitives(members: seq<StructMember>): seq<Primitive>
    requires forall i :: 0 <= i < |members| ==> members[i].primitive.Some?
  {
    seq(|members|, i requires 0 <= i < |members| => members[i].primitive.value)
  }

  /** For a target made of primitives only, member k becomes property k, whose
      index is k: the position of its own size in the table. */
  lemma {:induction false} TopLevelPrimitiveIndex(structs: seq<Struct>, members: seq<StructMember>, fuel: nat, before: nat)
    requires forall i :: 0 <= i < |members| ==> members[i].primitive.Some?
    ensures TopLevel(structs, members, fuel, before).Ok?
    ensures TopLevel(structs, members, fuel, before).value.sizes == SizesOf(Primitives(members))
    ensures |TopLevel(structs, members, fuel, before).value.properties| == |members|
    ensures forall k :: 0 <= k < |members| ==>
      TopLevel(structs, members, fuel, before).value.properties[k] == Property(before + k, members[k].name, [])
    decreases |members|
  {
    if members != [] {
      TopLevelPrimitiveIndex(structs, members[1..], fuel, before + 1);
      var t := TopLevel(structs, members[1..], fuel, before + 1).value;
      assert Primitives(members) == [members[0].primitive.value] + Primitives(members[1..]);
      assert SizesOf(Primitives(members)) == [members[0].primitive.value.size] + SizesOf(Primitives(members[1..]));
      forall k | 1 <= k < |members|
        ensures TopLevel(structs, members, fuel, before).value.properties[k] == Property(before + k, members[k].name, [])
      {
        assert t.properties[k - 1] == Property(before + 1 + (k - 1), members[1..][k - 1].name, []);
      }
    }
  }

  /** A top-level member whose type is neither primitive nor a known struct
      makes `create_mapping` raise. */
  lemma {:induction false} UnknownMemberRaises(structs: seq<Struct>, members: seq<StructMember>, fuel: nat, before: nat, k: nat)
    requires k < |members|
    requires members[k].primitive.None? && FindStruct(structs, members[k].typ).None?
    ensures TopLevel(structs, members, fuel, before).Err?
    decreases |members|
  {
    if k > 0 {
      var m := members[0];
      var head: Result<Scan, Error> :=
        if m.primitive.Some? then Ok(Scan([m.primitive.value.size], [Property(before, m.name, [])]))
        else
          match FindStruct(structs, m.typ)
          case None => Err(DefinitionNotFound(m.name, m.typ))
          case Some(st) => ScanMembers(structs, st.members, fuel);
      if head.Ok? {
        UnknownMemberRaises(structs, members[1..], fuel, before + |head.value.sizes|, k - 1);
      }
    }
  }

  // ----- the .mrmap size block and the file name ---------------------------

  /** `pack(f"<H{n}B", n, *sizes)`: a little-endian u16 count, then one byte per
      size; struct.error when the count or a size does not fit. */
  function PackSizes(sizes: seq<nat>): Result<seq<byte>, Error>
  {
    if |sizes| >= TWO_16 || exists i :: 0 <= i < |sizes| && sizes[i] >= TWO_8 then Err(StructPackError)
    else
      Ok([(|sizes| % TWO_8) as byte, (|sizes| / TWO_8) as byte]
         + seq(|sizes|, i requires 0 <= i < |sizes| && sizes[i] < TWO_8 => sizes[i] as byte))
  }

  /** Reads a size block back. */
  function UnpackSizes(block: seq<byte>): Option<seq<nat>>
  {
    if |block| < 2 then None
    else
      var n := block[0] as int + TWO_8 * block[1] as int;
      if |block| != 2 + n then None
      else Some(seq(n, i requires 0 <= i < n => block[2 + i] as nat))
  }

  /** The block is 2 + n bytes long and reads back as the table whenever n
      and every size fit; otherwise packing raises. */
  lemma PackSizesRoundTrip(sizes: seq<nat>)
    ensures PackSizes(sizes).Ok? <==> |sizes| < TWO_16 && forall i :: 0 <= i < |sizes| ==> sizes[i] < TWO_8
    ensures PackSizes(sizes).Ok? ==> |PackSizes(sizes).value| == 2 + |sizes|
    ensures PackSizes(sizes).Ok? ==> UnpackSizes(PackSizes(sizes).value) == Some(sizes)
  {
    if PackSizes(sizes).Ok? {
      var n := |sizes|;
      var b := PackSizes(sizes).value;
      assert b[0] as int == n % TWO_8 && b[1] as int == n / TWO_8;
      assert n == n % TWO_8 + TWO_8 * (n / TWO_8);
      assert |b| == 2 + n;
      assert forall i :: 0 <= i < n ==> b[2 + i] as nat == sizes[i];
      var u := UnpackSizes(b);
      assert u.Some? && |u.value| == n;
      assert forall i :: 0 <= i < n ==> u.value[i] == sizes[i];
      assert u.value == sizes;
    }
  }

  /** `check_extension` inside `open_program_in_use_type_file`. */
  function CheckExtension(path: string): (r: string)
    ensures EndsWith(r, ".mrtype")
  {
    if EndsWith(path, ".mrtype") then path else path + ".mrtype"
  }

  /** The suffix is added only when absent, so a second call changes nothing. */
  lemma CheckExtensionIdempotent(path: string)
    ensures CheckExtension(CheckExtension(path)) == CheckExtension(path)
    ensures EndsWith(path, ".mrtype") ==> CheckExtension(path) == path
    ensures !EndsWith(path, ".mrtype") ==> CheckExtension(path) == path + ".mrtype"
  {
  }

  // ----- open_program_in_use_type_file --------------------------------------

  /** The driver after its I/O: `lines` is the file named by
      `CheckExtension(filePath)`, `structName` the answer to the second prompt.
      `written` is the `.mrmap` file as it is left, with its name and bytes
      (the second, empty `pack` adds nothing). `write_file_mapping` opens it
      with `"wb+"` before it packs the sizes, so a packing error leaves it
      created or truncated to empty; before the mapping exists no file is
      touched. The nesting is followed `|structs|` levels deep: see
      `MappingLimitMeansSelfNesting`. */
  method OpenProgramInUseTypeFile(filePath: string, lines: seq<string>, structName: string,
                                  primitiveSizes: map<string, nat>)
    returns (r: Result<(), Error>, written: Option<(string, seq<byte>)>)
    ensures ParseFrom(ClassifyAll(lines), 0, primitiveSizes).Err? ==>
      r == Err(ParseFrom(ClassifyAll(lines), 0, primitiveSizes).error) && written == None
    ensures ParseFrom(ClassifyAll(lines), 0, primitiveSizes).Ok? ==>
      var structs := ParseFrom(ClassifyAll(lines), 0, primitiveSizes).value;
      var name := Strip(structName);
      match FindStruct(structs, name)
      case None => r == Err(StructNotFound(name, Levenshtein.FuzzyMatch(name, StructNames(structs)))) && written == None
      case Some(st) =>
        match Mapping(structs, st, |structs|)
        case Err(e) => r == Err(e) && written == None
        case Ok(mapping) =>
          match PackSizes(mapping.sizes)
          case Err(e) => r == Err(e) && written == Some((filePath + ".mrmap", []))
          case Ok(block) => r == Ok(()) && written == Some((filePath + ".mrmap", block))
  {
    var parsed := ParseFile(lines, primitiveSizes);
    if parsed.Err? {
      return Err(parsed.error), None;
    }
    var structs := parsed.value;
    var name := Strip(structName);
    var found := FindStruct(structs, name);
    if found.None? {
      return Err(StructNotFound(name, Levenshtein.FuzzyMatch(name, StructNames(structs)))), None;
    }
    var mapping := CreateMapping(structs, found.value, |structs|);
    if mapping.Err? {
      return Err(mapping.error), None;
    }
    // open(file_path + ".mrmap", "wb+") creates or truncates the file first
    written := Some((filePath + ".mrmap", []));
    var block := PackSizes(mapping.value.sizes);
    if block.Err? {
      return Err(block.error), written;
    }
    written := Some((filePath + ".mrmap", block.value));
    r := Ok(());
  }
}
