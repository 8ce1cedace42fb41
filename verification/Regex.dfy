/** The part of .NET's regular expressions the name pattern uses, with its matching semantics. */
module Regex {
  datatype Class = Lower | LowerOrDigit | Hyphen

  predicate In(c: char, cls: Class) {
    match cls
    case Lower => 'a' <= c <= 'z'
    case LowerOrDigit => 'a' <= c <= 'z' || '0' <= c <= '9'
    case Hyphen => c == '-'
  }

  datatype Re =
    | One(cls: Class)
    | Then(a: Re, b: Re)
    | Either(a: Re, b: Re)
    | Star(a: Re)
    | Ahead(a: Re)   // lookahead: matches without consuming
    | Bol            // ^
    | Eol            // $: the end, or just before a final newline

  /** The positions at which a match of `re` from position `i` can end. */
  ghost function Ends(re: Re, s: string, i: nat): (r: set<nat>)
    requires i <= |s|
    ensures forall j | j in r :: i <= j <= |s|
    decreases re, |s| - i
  {
    match re
    case One(cls) => if i < |s| && In(s[i], cls) then {i + 1} else {}
    case Then(a, b) => set j, k | j in Ends(a, s, i) && k in Ends(b, s, j) :: k
    case Either(a, b) => Ends(a, s, i) + Ends(b, s, i)
    case Star(a) => {i} + set j, k | j in Ends(a, s, i) && i < j && k in Ends(re, s, j) :: k
    case Ahead(a) => if Ends(a, s, i) != {} then {i} else {}
    case Bol => if i == 0 then {i} else {}
    case Eol => if i == |s| || (i == |s| - 1 && s[i] == '\n') then {i} else {}
  }

  /** Regex.IsMatch: a match may start anywhere. */
  ghost predicate IsMatch(re: Re, s: string) {
    exists i: nat | i <= |s| :: Ends(re, s, i) != {}
  }

  lemma EndsThen(a: Re, b: Re, s: string, i: nat, j: nat)
    requires i <= |s|
    requires Ends(a, s, i) == {j}
    ensures j <= |s| && Ends(Then(a, b), s, i) == Ends(b, s, j)
  {
  }

  lemma EndsThenFails(a: Re, b: Re, s: string, i: nat)
    requires i <= |s| && Ends(a, s, i) == {}
    ensures Ends(Then(a, b), s, i) == {}
  {
  }

  lemma EndsAhead(s: string, i: nat)
    requires i <= |s|
    ensures Ends(Ahead(One(LowerOrDigit)), s, i) == if i < |s| && In(s[i], LowerOrDigit) then {i} else {}
  {
  }

  lemma EndsStarOnce(a: Re, s: string, i: nat, j: nat, k: nat)
    requires i < j <= |s| && Ends(a, s, i) == {j}
    ensures k in Ends(Star(a), s, i) <==> k == i || k in Ends(Star(a), s, j)
  {
    assert j in Ends(a, s, i);
  }

  lemma EndsStarNone(a: Re, s: string, i: nat, k: nat)
    requires i <= |s| && Ends(a, s, i) == {}
    ensures k in Ends(Star(a), s, i) <==> k == i
  {
  }
}
