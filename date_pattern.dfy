/**
  The date test of the message handler: the regular expression
  `^\d{4}-\d{2}-\d{2}$` (no flags), applied with `RegExp.prototype.test`.

  Every piece of that expression is an atom repeated a fixed number of
  times, so the expression is modelled as a sequence of `Piece`s matched
  against the WHOLE input (`^` is start of input, and `$` without the `m`
  flag is end of input: a trailing newline is not accepted). `\d` is the
  ASCII class `[0-9]`.
*/
module DatePattern {
  import Decimal

  /** A single-character class: `\d` or one literal character. */
  datatype Atom = AnyDigit | Literal(c: char)

  /** `atom{count}` */
  datatype Piece = Piece(atom: Atom, count: nat)

  predicate AtomMatches(a: Atom, c: char) {
    match a
    case AnyDigit => Decimal.IsAsciiDigit(c)
    case Literal(l) => c == l
  }

  /** True iff the pieces, in order, consume exactly the whole of `s`. */
  predicate MatchesWhole(ps: seq<Piece>, s: string)
    decreases |ps|
  {
    if ps == [] then s == []
    else
      var n := ps[0].count;
      && n <= |s|
      && (forall i :: 0 <= i < n ==> AtomMatches(ps[0].atom, s[i]))
      && MatchesWhole(ps[1..], s[n..])
  }

  /** `^\d{4}-\d{2}-\d{2}$` */
  const DateRegex: seq<Piece> := [
    Piece(AnyDigit, 4), Piece(Literal('-'), 1),
    Piece(AnyDigit, 2), Piece(Literal('-'), 1),
    Piece(AnyDigit, 2)
  ]

  /** `datePattern.test(text)` */
  predicate Test(s: string) {
    MatchesWhole(DateRegex, s)
  }

  /** The reference description: ten characters, `-` at positions 4 and 7,
      an ASCII digit everywhere else. */
  predicate DateShaped(s: string) {
    && |s| == 10
    && s[4] == '-' && s[7] == '-'
    && (forall i :: 0 <= i < 10 && i != 4 && i != 7 ==> Decimal.IsAsciiDigit(s[i]))
  }

  /** Matching a run of one atom followed by the rest of the pattern. */
  lemma MatchesWholeCons(p: Piece, ps: seq<Piece>, s: string)
    ensures MatchesWhole([p] + ps, s) <==>
      && p.count <= |s|
      && (forall i :: 0 <= i < p.count ==> AtomMatches(p.atom, s[i]))
      && MatchesWhole(ps, s[p.count..])
  {
    assert ([p] + ps)[0] == p;
    assert ([p] + ps)[1..] == ps;
  }

  /** The regular expression accepts exactly the date-shaped strings. */
  lemma {:induction false} TestIsDateShaped(s: string)
    ensures Test(s) <==> DateShaped(s)
  {
    var p0, p1, p2, p3, p4 := DateRegex[0], DateRegex[1], DateRegex[2], DateRegex[3], DateRegex[4];
    assert DateRegex == [p0] + [p1, p2, p3, p4];
    assert [p1, p2, p3, p4] == [p1] + [p2, p3, p4];
    assert [p2, p3, p4] == [p2] + [p3, p4];
    assert [p3, p4] == [p3] + [p4];
    assert [p4] == [p4] + [];
    MatchesWholeCons(p0, [p1, p2, p3, p4], s);
    if 4 <= |s| {
      MatchesWholeCons(p1, [p2, p3, p4], s[4..]);
      if 5 <= |s| {
        MatchesWholeCons(p2, [p3, p4], s[5..]);
        if 7 <= |s| {
          MatchesWholeCons(p3, [p4], s[7..]);
          if 8 <= |s| {
            MatchesWholeCons(p4, [], s[8..]);
          }
        }
      }
    }
    if Test(s) {
      assert |s[8..][2..]| == 0;
      forall i | 0 <= i < 10 && i != 4 && i != 7
        ensures Decimal.IsAsciiDigit(s[i])
      {
        if i < 4 {
        } else if i < 7 {
          assert s[i] == s[5..][i - 5];
        } else {
          assert s[i] == s[8..][i - 8];
        }
      }
    }
    if DateShaped(s) {
      assert forall i :: 0 <= i < 2 ==> s[5..][i] == s[5 + i];
      assert forall i :: 0 <= i < 2 ==> s[8..][i] == s[8 + i];
      assert s[8..][2..] == [];
    }
  }
}
