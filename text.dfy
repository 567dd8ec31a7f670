/** String operations the core relies on: substring search (`contains`) and `String.prototype.split`. */
module Text {

  /** `needle` occurs in `hay` starting at index `i`. */
  ghost predicate OccursAt(hay: string, needle: string, i: nat) {
    i + |needle| <= |hay| && hay[i..i + |needle|] == needle
  }

  /** Substring test, as the storage layer's `{ contains: needle }` filter (case-sensitive). */
  predicate Contains(hay: string, needle: string)
    ensures Contains(hay, needle) ==> |needle| <= |hay|
    ensures needle == [] ==> Contains(hay, needle)
    decreases |hay|
  {
    needle <= hay || (hay != [] && Contains(hay[1..], needle))
  }

  /** `Contains` holds exactly when the needle occurs at some position of the haystack. */
  lemma {:induction false} ContainsIffOccurs(hay: string, needle: string)
    ensures Contains(hay, needle) <==> exists i: nat :: OccursAt(hay, needle, i)
    decreases |hay|
  {
    if needle <= hay {
      assert OccursAt(hay, needle, 0);
    } else if hay == [] {
      assert needle != [];
      forall i: nat ensures !OccursAt(hay, needle, i) { }
    } else {
      ContainsIffOccurs(hay[1..], needle);
      if Contains(hay[1..], needle) {
        var i: nat :| OccursAt(hay[1..], needle, i);
        assert hay[i + 1..i + 1 + |needle|] == hay[1..][i..i + |needle|];
        assert OccursAt(hay, needle, i + 1);
      } else {
        forall i: nat | OccursAt(hay, needle, i) ensures false {
          if i > 0 {
            OccursShift(hay, needle, i);
          }
        }
      }
    }
  }

  /** An occurrence past the first position is an occurrence in the tail, one position earlier. */
  lemma OccursShift(hay: string, needle: string, i: nat)
    requires hay != [] && i > 0
    ensures OccursAt(hay, needle, i) <==> OccursAt(hay[1..], needle, i - 1)
  {
    if i + |needle| <= |hay| {
      assert hay[1..][i - 1..i - 1 + |needle|] == hay[i..i + |needle|];
    }
  }

  /** The empty search string occurs in every string. */
  lemma EmptyContained(hay: string)
    ensures Contains(hay, "")
  {
  }

  /** `s.split(sep)`: the maximal runs between separators, always at least one piece. */
  function Split(s: string, sep: char): (r: seq<string>)
    ensures |r| >= 1
    ensures forall i :: 0 <= i < |r| ==> sep !in r[i]
  {
    if s == [] then [""]
    else
      var rest := Split(s[1..], sep);
      if s[0] == sep then [""] + rest
      else [[s[0]] + rest[0]] + rest[1..]
  }

  /** `pieces.join(sep)`. */
  function Join(pieces: seq<string>, sep: char): string
    requires |pieces| >= 1
  {
    if |pieces| == 1 then pieces[0] else pieces[0] + [sep] + Join(pieces[1..], sep)
  }

  /** Joining the pieces with the separator gives back the string that was split. */
  lemma {:induction false} JoinSplit(s: string, sep: char)
    ensures Join(Split(s, sep), sep) == s
  {
    if s != [] {
      JoinSplit(s[1..], sep);
      var rest := Split(s[1..], sep);
      if s[0] != sep {
        var r := [[s[0]] + rest[0]] + rest[1..];
        if |rest| > 1 {
          assert r[1..] == rest[1..];
        }
      }
    }
  }

  /** Splitting pieces that were joined (none containing the separator) gives back the pieces. */
  lemma {:induction false} SplitJoin(pieces: seq<string>, sep: char)
    requires |pieces| >= 1
    requires forall i :: 0 <= i < |pieces| ==> sep !in pieces[i]
    ensures Split(Join(pieces, sep), sep) == pieces
    decreases |pieces|, |pieces[0]|
  {
    if |pieces[0]| > 0 {
      var p0 := pieces[0];
      var tail := [p0[1..]] + pieces[1..];
      SplitJoin(tail, sep);
      assert Join(tail, sep) == p0[1..] + Join(pieces, sep)[|p0|..] by {
        if |pieces| > 1 { assert tail[1..] == pieces[1..]; }
      }
      assert Join(pieces, sep)[1..] == Join(tail, sep);
      assert [p0[0]] + p0[1..] == p0;
    } else if |pieces| > 1 {
      SplitJoin(pieces[1..], sep);
      assert Join(pieces, sep)[1..] == Join(pieces[1..], sep);
    }
  }

  /** A separator right after a separator-free prefix ends the first piece there. */
  lemma {:induction false} SplitAfterPrefix(p: string, q: string, sep: char)
    requires sep !in p
    ensures Split(p + [sep] + q, sep) == [p] + Split(q, sep)
  {
    if p != [] {
      assert (p + [sep] + q)[1..] == p[1..] + [sep] + q;
      SplitAfterPrefix(p[1..], q, sep);
      assert [p[0]] + p[1..] == p;
    } else {
      assert (p + [sep] + q)[1..] == q;
    }
  }

  /** The first piece of the split is the longest separator-free prefix. */
  lemma {:induction false} SplitHead(p: string, q: string, sep: char)
    requires sep !in p
    requires q == [] || q[0] == sep
    ensures Split(p + q, sep)[0] == p
  {
    if q == [] {
      assert p + q == Join([p], sep);
      SplitJoin([p], sep);
    } else {
      assert p + q == p + [sep] + q[1..];
      SplitAfterPrefix(p, q[1..], sep);
    }
  }
}
