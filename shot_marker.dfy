/**
 * `ShotMarker` (the marker of the earlier map screen): whether it shows a
 * distance, its pin colour, and its title and description.
 */
module ShotMarker {
  import opened Wrappers
  import opened Geo
  import opened ShotLedger

  /** The three pin colours. */
  datatype Pin = Green | Red | Orange

  /**
   * The description text: `Club: <club text> ` followed, when a distance is
   * shown, by ` | Distance: <yards> yards` for the given pair.
   */
  datatype Description = Description(clubText: string, distance: Option<Yards>)

  /**
   * `pinColor`: green for the first shot of a hole (shot number 1), else red
   * for the last marker of the round (the last index), else orange.
   */
  function PinColor(shot: Shot, index: int, totalShots: int): (p: Pin)
    ensures p == Green <==> shot.shotNumber == 1
    ensures p == Red <==> index == totalShots - 1 && shot.shotNumber != 1
    ensures p == Orange <==> index != totalShots - 1 && shot.shotNumber != 1
  {
    if shot.shotNumber == 1 then Green
    else if index == totalShots - 1 then Red
    else Orange
  }

  /** The decimal digit of `d`. */
  function Digit(d: nat): (c: char)
    requires d < 10
    ensures '0' <= c <= '9'
  {
    "0123456789"[d]
  }

  /** The decimal text of a natural number, as `String(n)` writes it. */
  function NatToString(n: nat): (s: string)
    ensures |s| > 0
    ensures forall i :: 0 <= i < |s| ==> '0' <= s[i] <= '9'
    ensures n >= 10 ==> |s| >= 2
  {
    if n < 10 then [Digit(n)] else NatToString(n / 10) + [Digit(n % 10)]
  }

  /** The decimal text of an integer, with a leading `-` when negative. */
  function IntToString(n: int): (s: string)
    ensures |s| > 0 && (s[0] == '-' <==> n < 0)
    ensures forall i :: (if n < 0 then 1 else 0) <= i < |s| ==> '0' <= s[i] <= '9'
  {
    if n < 0 then "-" + NatToString(-n) else NatToString(n)
  }

  /** The title `Hole {h} - Shot {s}`. */
  function Title(shot: Shot): (t: string)
    ensures var h, n := IntToString(shot.holeNumber), IntToString(shot.shotNumber);
            && |t| == 13 + |h| + |n|
            && t[..5] == "Hole " && t[5..5 + |h|] == h
            && t[5 + |h|..13 + |h|] == " - Shot " && t[13 + |h|..] == n
  {
    var h, n := IntToString(shot.holeNumber), IntToString(shot.shotNumber);
    var t := "Hole " + h + " - Shot " + n;
    assert t[..5] == "Hole ";
    assert t[5..5 + |h|] == h;
    assert t[5 + |h|..13 + |h|] == " - Shot ";
    assert t[13 + |h|..] == n;
    t
  }

  /** The club text: the club, or `Not entered` when it is missing or empty. */
  function ClubText(club: Option<string>): (t: string)
    ensures club.Some? && club.value != "" ==> t == club.value
    ensures club.None? || club.value == "" ==> t == "Not entered"
  {
    if club.Some? && club.value != "" then club.value else "Not entered"
  }

  /**
   * The description: the club text, and the distance to the next shot when
   * there is one on the same hole (`showDistance`).
   */
  function DescriptionOf(shot: Shot, nextShot: Option<Shot>): (d: Description)
    ensures d.clubText == ClubText(shot.club)
    ensures d.distance.Some? <==> nextShot.Some? && nextShot.value.holeNumber == shot.holeNumber
    ensures d.distance.Some? ==> d.distance.value == Yards(shot.coordinate, nextShot.value.coordinate)
  {
    Description(ClubText(shot.club),
                if nextShot.Some? && nextShot.value.holeNumber == shot.holeNumber then Some(Yards(shot.coordinate, nextShot.value.coordinate)) else None)
  }

  // ---------------------------------------------------------------------------
  // Titles identify the shot.
  // ---------------------------------------------------------------------------

  lemma {:induction false} DigitInjective(a: nat, b: nat)
    requires a < 10 && b < 10 && Digit(a) == Digit(b)
    ensures a == b
  {
  }

  /** Different numbers have different decimal texts. */
  lemma {:induction false} NatToStringInjective(a: nat, b: nat)
    requires NatToString(a) == NatToString(b)
    ensures a == b
  {
    var sa, sb := NatToString(a), NatToString(b);
    if a < 10 && b < 10 {
      DigitInjective(a, b);
    } else if a >= 10 && b >= 10 {
      var pa, pb := NatToString(a / 10), NatToString(b / 10);
      assert sa == pa + [Digit(a % 10)] && sb == pb + [Digit(b % 10)];
      assert sa[|sa| - 1] == Digit(a % 10) && sb[|sb| - 1] == Digit(b % 10);
      DigitInjective(a % 10, b % 10);
      assert pa == sa[..|sa| - 1] && pb == sb[..|sb| - 1];
      NatToStringInjective(a / 10, b / 10);
    }
  }

  /** Different integers have different texts. */
  lemma IntToStringInjective(a: int, b: int)
    requires IntToString(a) == IntToString(b)
    ensures a == b
  {
    var sa, sb := IntToString(a), IntToString(b);
    assert sa[0] == sb[0];
    if a < 0 {
      assert NatToString(-a) == sa[1..] && NatToString(-b) == sb[1..];
      NatToStringInjective(-a, -b);
    } else {
      NatToStringInjective(a, b);
    }
  }

  /** An integer's text holds no space. */
  lemma IntToStringNoSpace(n: int)
    ensures forall i :: 0 <= i < |IntToString(n)| ==> IntToString(n)[i] != ' '
  {
    if n < 0 {
      var t := NatToString(-n);
      assert IntToString(n) == "-" + t;
      forall i | 0 <= i < |IntToString(n)| ensures IntToString(n)[i] != ' ' {
        if i > 0 { assert IntToString(n)[i] == t[i - 1]; }
      }
    }
  }

  /** The separator's leading space follows `x`. */
  lemma SpaceAfter(x: string, sep: string, y: string)
    requires |sep| > 0 && sep[0] == ' '
    ensures (x + sep + y)[|x|] == ' '
  {
  }

  /** `x + sep + y` with no space in `x` or `x'` splits at the same place. */
  lemma SplitAtSpace(x: string, y: string, x': string, y': string, sep: string)
    requires |sep| > 0 && sep[0] == ' '
    requires forall i :: 0 <= i < |x| ==> x[i] != ' '
    requires forall i :: 0 <= i < |x'| ==> x'[i] != ' '
    requires x + sep + y == x' + sep + y'
    ensures x == x' && y == y'
  {
    var l, r := x + sep + y, x' + sep + y';
    if |x| < |x'| {
      SpaceAfter(x, sep, y);
      assert false;
    } else if |x'| < |x| {
      SpaceAfter(x', sep, y');
      assert false;
    } else {
      assert x == l[..|x|] && x' == r[..|x|];
      assert y == l[|x| + |sep|..] && y' == r[|x| + |sep|..];
    }
  }

  /** A title splits back into its two numbers' texts when the first holds no space. */
  lemma SplitTitle(h: string, n: string, h': string, n': string)
    requires forall i :: 0 <= i < |h| ==> h[i] != ' '
    requires forall i :: 0 <= i < |h'| ==> h'[i] != ' '
    requires "Hole " + h + " - Shot " + n == "Hole " + h' + " - Shot " + n'
    ensures h == h' && n == n'
  {
    var t, t' := "Hole " + h + " - Shot " + n, "Hole " + h' + " - Shot " + n';
    assert t[5..] == h + " - Shot " + n;
    assert t'[5..] == h' + " - Shot " + n';
    SplitAtSpace(h, n, h', n', " - Shot ");
  }

  /** Two markers with the same title have the same hole and shot numbers. */
  lemma TitleDeterminesNumbers(a: Shot, b: Shot)
    requires Title(a) == Title(b)
    ensures a.holeNumber == b.holeNumber && a.shotNumber == b.shotNumber
  {
    IntToStringNoSpace(a.holeNumber);
    IntToStringNoSpace(b.holeNumber);
    SplitTitle(IntToString(a.holeNumber), IntToString(a.shotNumber),
               IntToString(b.holeNumber), IntToString(b.shotNumber));
    IntToStringInjective(a.holeNumber, b.holeNumber);
    IntToStringInjective(a.shotNumber, b.shotNumber);
  }
}
