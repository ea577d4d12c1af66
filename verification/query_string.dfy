/** Query strings of the form `k1=v1&k2=v2&...`, built without any escaping,
    and the way a receiver reads one back: split on `&`, then split each piece
    at its first `=`. This is the reference the login URL is checked against. */
module QueryString {

  /** One `name=value` query parameter. */
  type Param = (string, string)

  /** The pieces joined with `sep` between neighbours. */
  function JoinWith(pieces: seq<string>, sep: char): string
    decreases |pieces|
  {
    if |pieces| == 0 then ""
    else if |pieces| == 1 then pieces[0]
    else pieces[0] + [sep] + JoinWith(pieces[1..], sep)
  }

  /** The maximal `sep`-free runs of `s`, in order; inverse of JoinWith. */
  function Split(s: string, sep: char): (pieces: seq<string>)
    ensures |pieces| >= 1
    ensures forall i :: 0 <= i < |pieces| ==> sep !in pieces[i]
    decreases |s|
  {
    if |s| == 0 then [""]
    else
      var rest := Split(s[1..], sep);
      if s[0] == sep then [""] + rest
      else [[s[0]] + rest[0]] + rest[1..]
  }

  /** The text of one parameter. */
  function Segment(p: Param): string {
    p.0 + "=" + p.1
  }

  /** The text of every parameter, in order. */
  function Segments(ps: seq<Param>): (segments: seq<string>)
    ensures |segments| == |ps|
  {
    seq(|ps|, i requires 0 <= i < |ps| => Segment(ps[i]))
  }

  /** `name=value` for every parameter, in order, joined with `&`. */
  function Join(ps: seq<Param>): string {
    JoinWith(Segments(ps), '&')
  }

  /** Appending a piece appends the separator and that piece. */
  lemma {:induction false} JoinWithAppend(pieces: seq<string>, sep: char, last: string)
    requires |pieces| >= 1
    ensures JoinWith(pieces + [last], sep) == JoinWith(pieces, sep) + [sep] + last
    decreases |pieces|
  {
    var all := pieces + [last];
    if |pieces| > 1 {
      assert all[1..] == pieces[1..] + [last];
      JoinWithAppend(pieces[1..], sep, last);
    }
  }

  /** Appending a parameter appends `&name=value` to the query string. */
  lemma JoinAppend(ps: seq<Param>, p: Param)
    requires |ps| >= 1
    ensures Join(ps + [p]) == Join(ps) + "&" + Segment(p)
  {
    assert Segments(ps + [p]) == Segments(ps) + [Segment(p)];
    JoinWithAppend(Segments(ps), '&', Segment(p));
  }

  /** A piece read as a parameter: the name is everything before the first
      `=`, the value everything after it; a piece without `=` has value "". */
  function SplitPair(s: string): (p: Param)
    ensures '=' !in p.0
    ensures if '=' in s then s == p.0 + "=" + p.1 else p == (s, "")
    decreases |s|
  {
    if |s| == 0 then ("", "")
    else if s[0] == '=' then ("", s[1..])
    else
      var rest := SplitPair(s[1..]);
      assert s == [s[0]] + s[1..];
      ([s[0]] + rest.0, rest.1)
  }

  /** The parameters a receiver reads from a query string. */
  function Parse(q: string): (ps: seq<Param>)
    ensures |ps| >= 1
    ensures forall i :: 0 <= i < |ps| ==> '=' !in ps[i].0 && '&' !in ps[i].1
  {
    var pieces := Split(q, '&');
    seq(|pieces|, i requires 0 <= i < |pieces| => SplitPair(pieces[i]))
  }

  /** A string made of `&`-free pieces is read back piece by piece. */
  lemma ParsePieces(pieces: seq<string>)
    requires |pieces| >= 1
    requires forall i :: 0 <= i < |pieces| ==> '&' !in pieces[i]
    ensures Parse(JoinWith(pieces, '&')) == seq(|pieces|, i requires 0 <= i < |pieces| => SplitPair(pieces[i]))
  {
    SplitJoinWith(pieces, '&');
  }

  /** Four pieces joined: the separator between each neighbouring pair. */
  lemma JoinWithFour(a: string, b: string, c: string, d: string, sep: char)
    ensures JoinWith([a, b, c, d], sep) == a + [sep] + (b + [sep] + c) + [sep] + d
  {
    var pieces := [a, b, c, d];
    assert pieces[1..] == [b, c, d] && pieces[1..][1..] == [c, d] && pieces[1..][1..][1..] == [d];
    assert JoinWith([c, d], sep) == c + [sep] + d;
  }

  /** Three well-formed parameters around one loose piece (at position 2)
      read back as those parameters around the pair the loose piece yields. */
  lemma ParseAroundLoosePiece(p0: Param, p1: Param, loose: string, p3: Param)
    requires '=' !in p0.0 && '=' !in p1.0 && '=' !in p3.0
    requires '&' !in Segment(p0) && '&' !in Segment(p1) && '&' !in loose && '&' !in Segment(p3)
    ensures Parse(JoinWith([Segment(p0), Segment(p1), loose, Segment(p3)], '&'))
      == [p0, p1, SplitPair(loose), p3]
  {
    var pieces := [Segment(p0), Segment(p1), loose, Segment(p3)];
    AmpersandFreePieces(pieces);
    ParsePieces(pieces);
    ParsedSegments(p0, p1, loose, p3);
  }

  /** Four `&`-free pieces, stated as a quantifier. */
  lemma AmpersandFreePieces(pieces: seq<string>)
    requires |pieces| == 4
    requires '&' !in pieces[0] && '&' !in pieces[1] && '&' !in pieces[2] && '&' !in pieces[3]
    ensures forall i :: 0 <= i < |pieces| ==> '&' !in pieces[i]
  {
  }

  /** Reading the four pieces one by one gives back the three segments'
      parameters. */
  lemma ParsedSegments(p0: Param, p1: Param, loose: string, p3: Param)
    requires '=' !in p0.0 && '=' !in p1.0 && '=' !in p3.0
    ensures var pieces := [Segment(p0), Segment(p1), loose, Segment(p3)];
      seq(|pieces|, i requires 0 <= i < |pieces| => SplitPair(pieces[i])) == [p0, p1, SplitPair(loose), p3]
  {
    var pieces := [Segment(p0), Segment(p1), loose, Segment(p3)];
    var parsed := seq(|pieces|, i requires 0 <= i < |pieces| => SplitPair(pieces[i]));
    assert parsed[0] == p0 by { SplitPairSegment(p0.0, p0.1); }
    assert parsed[1] == p1 by { SplitPairSegment(p1.0, p1.1); }
    assert parsed[3] == p3 by { SplitPairSegment(p3.0, p3.1); }
  }

  /** Parameters that survive a round trip: at least one, names free of `=`
      and `&`, values free of `&`. */
  predicate Unambiguous(ps: seq<Param>) {
    && |ps| >= 1
    && forall i :: 0 <= i < |ps| ==> '=' !in ps[i].0 && '&' !in ps[i].0 && '&' !in ps[i].1
  }

  /** A separator-free prefix followed by the separator is the first piece. */
  lemma {:induction false} SplitBeforeSep(a: string, sep: char, b: string)
    requires sep !in a
    ensures Split(a + [sep] + b, sep) == [a] + Split(b, sep)
    decreases |a|
  {
    var s := a + [sep] + b;
    if |a| == 0 {
      assert s == [sep] + b;
      assert s[1..] == b;
    } else {
      assert s[0] == a[0];
      assert s[1..] == a[1..] + [sep] + b;
      SplitBeforeSep(a[1..], sep, b);
      assert [a[0]] + a[1..] == a;
    }
  }

  /** A separator-free string is a single piece. */
  lemma {:induction false} SplitWithoutSep(a: string, sep: char)
    requires sep !in a
    ensures Split(a, sep) == [a]
    decreases |a|
  {
    if |a| > 0 {
      SplitWithoutSep(a[1..], sep);
      assert [a[0]] + a[1..] == a;
    }
  }

  /** Splitting undoes joining whenever no piece contains the separator. */
  lemma {:induction false} SplitJoinWith(pieces: seq<string>, sep: char)
    requires |pieces| >= 1
    requires forall i :: 0 <= i < |pieces| ==> sep !in pieces[i]
    ensures Split(JoinWith(pieces, sep), sep) == pieces
    decreases |pieces|
  {
    if |pieces| == 1 {
      SplitWithoutSep(pieces[0], sep);
    } else {
      SplitJoinWith(pieces[1..], sep);
      SplitBeforeSep(pieces[0], sep, JoinWith(pieces[1..], sep));
      assert [pieces[0]] + pieces[1..] == pieces;
    }
  }

  /** A segment whose name has no `=` splits back into its name and value. */
  lemma {:induction false} SplitPairSegment(name: string, value: string)
    requires '=' !in name
    ensures SplitPair(name + "=" + value) == (name, value)
    decreases |name|
  {
    var s := name + "=" + value;
    if |name| == 0 {
      assert s == "=" + value;
      assert s[1..] == value;
    } else {
      assert s[0] == name[0];
      assert s[1..] == name[1..] + "=" + value;
      SplitPairSegment(name[1..], value);
      assert [name[0]] + name[1..] == name;
    }
  }

  /** Reading back a joined query string yields exactly the parameters that
      were joined, in the same order, when they are unambiguous. */
  lemma ParseJoin(ps: seq<Param>)
    requires Unambiguous(ps)
    ensures Parse(Join(ps)) == ps
  {
    var segments := Segments(ps);
    forall i | 0 <= i < |segments|
      ensures '&' !in segments[i]
    {
      assert segments[i] == ps[i].0 + "=" + ps[i].1;
    }
    SplitJoinWith(segments, '&');
    var parsed := Parse(Join(ps));
    assert |parsed| == |ps|;
    forall i | 0 <= i < |ps|
      ensures parsed[i] == ps[i]
    {
      SplitPairSegment(ps[i].0, ps[i].1);
    }
  }
}
