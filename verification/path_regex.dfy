/**
 * The small fragment of java.util.regex that the whitelist's endpoint translation produces:
 * literal characters, `.`, the starred class `[^/]*`, capturing groups `(` `)` and the
 * anchors `^` and `$`, matched against a whole string as `Pattern.matches` does.
 */
module PathRegex {
  import opened Wrappers
  import opened JavaString

  /** One matching step of a compiled pattern (groups are transparent for matching). */
  datatype Atom =
    | Lit(c: char)    // a literal character
    | AnyChar         // `.`: any single character except a line terminator
    | NonSlashRun     // `[^/]*`: any run, possibly empty, of characters other than '/'

  /** The starred negated class, as it appears in pattern text. */
  const NonSlashClass: string := "[^/]*"

  /** Prepends an atom to a parse that may have failed. */
  function Cons(a: Atom, rest: Option<seq<Atom>>): (r: Option<seq<Atom>>)
    ensures r.Some? <==> rest.Some?
    ensures r.Some? ==> r.value == [a] + rest.value
  {
    match rest
    case None => None
    case Some(t) => Some([a] + t)
  }

  /**
   * Compiles pattern text after an optional leading `^`, with `depth` groups open.
   * None stands for a PatternSyntaxException (an unclosed or unmatched group) and for
   * text outside the fragment.
   */
  function ParseBody(s: string, depth: nat): Option<seq<Atom>>
    decreases |s|
  {
    if s == [] || s == "$" then (if depth == 0 then Some([]) else None)
    else if s[0] == '(' then ParseBody(s[1..], depth + 1)
    else if s[0] == ')' then (if depth == 0 then None else ParseBody(s[1..], depth - 1))
    else if StartsWith(s, NonSlashClass) then Cons(NonSlashRun, ParseBody(s[|NonSlashClass|..], depth))
    else if s[0] == '.' then Cons(AnyChar, ParseBody(s[1..], depth))
    else if s[0] in "[]^$*+?|{}\\" then None
    else Cons(Lit(s[0]), ParseBody(s[1..], depth))
  }

  /** `Pattern.compile(re)` for the fragment. */
  function Parse(re: string): Option<seq<Atom>> {
    if re != [] && re[0] == '^' then ParseBody(re[1..], 0) else ParseBody(re, 0)
  }

  /** Whether the atoms match the WHOLE of `s` (as `Matcher.matches`), with backtracking over runs. */
  function Matches(p: seq<Atom>, s: string): bool
    decreases |s|, |p|
  {
    if p == [] then s == []
    else match p[0]
      case Lit(c) => s != [] && s[0] == c && Matches(p[1..], s[1..])
      case AnyChar => s != [] && !IsLineTerminator(s[0]) && Matches(p[1..], s[1..])
      case NonSlashRun => Matches(p[1..], s) || (s != [] && s[0] != '/' && Matches(p, s[1..]))
  }

  /** The atoms matching exactly the characters of `w`. */
  function Literals(w: string): (p: seq<Atom>)
    ensures |p| == |w|
    ensures forall i :: 0 <= i < |w| ==> p[i] == Lit(w[i])
  {
    seq(|w|, i requires 0 <= i < |w| => Lit(w[i]))
  }

  /** A literal prefix matches exactly the strings that start with it. */
  lemma {:induction false} LiteralsThen(w: string, q: seq<Atom>, s: string)
    ensures Matches(Literals(w) + q, s) <==> StartsWith(s, w) && Matches(q, s[|w|..])
    decreases |w|
  {
    if w == [] {
      assert Literals(w) + q == q;
    } else {
      var p := Literals(w) + q;
      assert p[0] == Lit(w[0]);
      assert p[1..] == Literals(w[1..]) + q;
      if s != [] {
        LiteralsThen(w[1..], q, s[1..]);
        if |s| >= |w| {
          assert s[1..][|w| - 1..] == s[|w|..];
        }
        if s[0] == w[0] {
          assert StartsWith(s, w) <==> StartsWith(s[1..], w[1..]);
        }
      }
    }
  }

  /** A pattern made of literals only matches exactly its own text. */
  lemma LiteralsExactly(w: string, s: string)
    ensures Matches(Literals(w), s) <==> s == w
  {
    assert Literals(w) + [] == Literals(w);
    LiteralsThen(w, [], s);
  }

  /** `[^/]*` on its own matches exactly the strings without '/'. */
  lemma {:induction false} RunMatchesNoSlash(s: string)
    ensures Matches([NonSlashRun], s) <==> '/' !in s
    decreases |s|
  {
    assert [NonSlashRun][1..] == [];
    if s != [] {
      RunMatchesNoSlash(s[1..]);
      assert s == [s[0]] + s[1..];
    }
  }

  /** `.[^/]*` matches one character other than a line terminator, then a run without '/'. */
  lemma AnyThenRun(s: string)
    ensures Matches([AnyChar, NonSlashRun], s) <==>
            s != [] && !IsLineTerminator(s[0]) && '/' !in s[1..]
  {
    assert [AnyChar, NonSlashRun][1..] == [NonSlashRun];
    if s != [] {
      RunMatchesNoSlash(s[1..]);
    }
  }
}
