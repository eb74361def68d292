/**
 * The string operations the source uses: `toLowerCase` (restricted to
 * ASCII letters), `includes`, and `join`.
 */
module Text {

  predicate IsUpper(c: char) { 'A' <= c <= 'Z' }

  function LowerChar(c: char): (r: char)
    ensures IsUpper(c) ==> r as int == c as int + 32
    ensures !IsUpper(c) ==> r == c
    ensures !IsUpper(r)
  {
    if IsUpper(c) then (c as int + 32) as char else c
  }

  /** ASCII `toLowerCase`: every upper-case letter is replaced by its lower-case form. */
  function ToLower(s: string): (r: string)
    ensures |r| == |s|
    ensures forall i :: 0 <= i < |s| ==> r[i] == LowerChar(s[i])
  {
    seq(|s|, i requires 0 <= i < |s| => LowerChar(s[i]))
  }

  lemma ToLowerConcat(a: string, b: string)
    ensures ToLower(a + b) == ToLower(a) + ToLower(b)
  {
  }

  /** Case-insensitive equality as the source writes it: `a.toLowerCase() === b.toLowerCase()`. */
  predicate EqualsIgnoreCase(a: string, b: string)
  {
    ToLower(a) == ToLower(b)
  }

  /** Lowering both sides keeps an occurrence: a case-insensitive search finds every literal one. */
  lemma ContainsLower(s: string, sub: string)
    requires Contains(s, sub)
    ensures Contains(ToLower(s), ToLower(sub))
  {
    ContainsIff(s, sub);
    var i :| OccursAt(s, sub, i);
    var ls, lsub := ToLower(s), ToLower(sub);
    assert ls[i..i + |sub|] == lsub by {
      forall k | 0 <= k < |sub| ensures ls[i..i + |sub|][k] == lsub[k] {
        assert s[i..i + |sub|][k] == sub[k];
      }
    }
    assert OccursAt(ls, lsub, i);
    ContainsIff(ls, lsub);
  }

  /** `s.includes(sub)`: `sub` occurs in `s` at some position. */
  predicate Contains(s: string, sub: string)
    decreases |s|
  {
    sub <= s || (|s| > 0 && Contains(s[1..], sub))
  }

  /** `sub` occurs in `s` starting at index `i`. */
  predicate OccursAt(s: string, sub: string, i: int)
  {
    0 <= i <= |s| - |sub| && s[i..i + |sub|] == sub
  }

  /** `Contains` agrees with the positional definition of an occurrence. */
  lemma {:induction false} ContainsIff(s: string, sub: string)
    ensures Contains(s, sub) <==> exists i :: OccursAt(s, sub, i)
    decreases |s|
  {
    if sub <= s {
      assert OccursAt(s, sub, 0);
    } else if |s| > 0 {
      ContainsIff(s[1..], sub);
      if Contains(s[1..], sub) {
        var i :| OccursAt(s[1..], sub, i);
        assert s[i + 1..i + 1 + |sub|] == s[1..][i..i + |sub|];
        assert OccursAt(s, sub, i + 1);
      }
      if exists i :: OccursAt(s, sub, i) {
        var i :| OccursAt(s, sub, i);
        assert s[..|sub|] != sub;
        assert s[1..][i - 1..i - 1 + |sub|] == s[i..i + |sub|];
        assert OccursAt(s[1..], sub, i - 1);
      }
    }
  }

  /** The empty string occurs in every string. */
  lemma ContainsEmpty(s: string)
    ensures Contains(s, "")
  {
  }

  /** A prefix occurs in the string. */
  lemma ContainsPrefix(s: string, suffix: string)
    ensures Contains(s + suffix, s)
  {
    assert s <= s + suffix;
  }

  /** `parts.join(sep)`. */
  function Join(parts: seq<string>, sep: string): (r: string)
    ensures |parts| == 0 ==> r == ""
    ensures |parts| == 1 ==> r == parts[0]
    ensures |parts| > 0 ==> parts[0] <= r
    decreases |parts|
  {
    if |parts| == 0 then ""
    else if |parts| == 1 then parts[0]
    else
      var r := parts[0] + sep + Join(parts[1..], sep);
      assert r == parts[0] + (sep + Join(parts[1..], sep));
      r
  }

  lemma JoinCons(parts: seq<string>, sep: string)
    requires |parts| >= 2
    ensures Join(parts, sep) == parts[0] + sep + Join(parts[1..], sep)
  {
  }

  /** A character that is in neither the parts nor the separator is not in their join. */
  lemma {:induction false} JoinAvoids(parts: seq<string>, sep: string, c: char)
    requires c !in sep
    requires forall i :: 0 <= i < |parts| ==> c !in parts[i]
    ensures c !in Join(parts, sep)
    decreases |parts|
  {
    if |parts| > 1 {
      JoinAvoids(parts[1..], sep, c);
    }
  }

  /** Splits `s` at every occurrence of the character `sep`; the inverse of `Join` on separator-free parts. */
  function Split(s: string, sep: char): (r: seq<string>)
    ensures |r| >= 1
    decreases |s|
  {
    if |s| == 0 then [""]
    else
      var rest := Split(s[1..], sep);
      if s[0] == sep then [""] + rest
      else [[s[0]] + rest[0]] + rest[1..]
  }

  lemma {:induction false} SplitAppend(a: string, sep: char, b: string)
    requires sep !in a
    ensures Split(a + [sep] + b, sep) == [a] + Split(b, sep)
    decreases |a|
  {
    if |a| == 0 {
      assert a + [sep] + b == [sep] + b;
      assert ([sep] + b)[1..] == b;
    } else {
      assert (a + [sep] + b)[1..] == a[1..] + [sep] + b;
      SplitAppend(a[1..], sep, b);
      assert a == [a[0]] + a[1..];
    }
  }

  lemma {:induction false} SplitNoSeparator(a: string, sep: char)
    requires sep !in a
    ensures Split(a, sep) == [a]
    decreases |a|
  {
    if |a| > 0 {
      SplitNoSeparator(a[1..], sep);
      assert a == [a[0]] + a[1..];
    }
  }

  /** Joining separator-free, non-empty lists of parts and splitting again gives the parts back. */
  lemma {:induction false} SplitJoin(parts: seq<string>, sep: char)
    requires |parts| >= 1
    requires forall i :: 0 <= i < |parts| ==> sep !in parts[i]
    ensures Split(Join(parts, [sep]), sep) == parts
    decreases |parts|
  {
    if |parts| == 1 {
      SplitNoSeparator(parts[0], sep);
    } else {
      SplitJoin(parts[1..], sep);
      SplitAppend(parts[0], sep, Join(parts[1..], [sep]));
      assert parts == [parts[0]] + parts[1..];
    }
  }

  /** A second field of the form `a,b` splits back into one more field than it was joined from. */
  lemma SplitSeesExtraField(first: string, a: string, b: string, rest: seq<string>)
    requires ',' !in first && ',' !in a && ',' !in b
    requires |rest| >= 1 && forall k :: 0 <= k < |rest| ==> ',' !in rest[k]
    ensures Split(Join([first, a + "," + b] + rest, ","), ',') == [first, a, b] + rest
  {
    JoinExtraField(first, a, b, rest);
    SplitThree(first, a, b, Join(rest, ","));
    SplitJoin(rest, ',');
  }

  lemma SplitThree(first: string, a: string, b: string, tail: string)
    requires ',' !in first && ',' !in a && ',' !in b
    ensures Split(first + [','] + (a + [','] + (b + [','] + tail)), ',') == [first, a, b] + Split(tail, ',')
  {
    var s3 := b + [','] + tail;
    var s2 := a + [','] + s3;
    SplitAppend(b, ',', tail);
    SplitAppend(a, ',', s3);
    SplitAppend(first, ',', s2);
    assert [first] + ([a] + ([b] + Split(tail, ','))) == [first, a, b] + Split(tail, ',');
  }

  lemma JoinExtraField(first: string, a: string, b: string, rest: seq<string>)
    requires |rest| >= 1
    ensures Join([first, a + "," + b] + rest, ",") == first + [','] + (a + [','] + (b + [','] + Join(rest, ",")))
  {
    var t := Join(rest, ",");
    assert [first, a + "," + b] + rest == [first] + ([a + "," + b] + rest);
    JoinPrepend(first, [a + "," + b] + rest, ",");
    JoinPrepend(a + "," + b, rest, ",");
    Reassociate(first, a, b, t);
  }

  lemma JoinPrepend(m: string, rest: seq<string>, sep: string)
    requires |rest| >= 1
    ensures Join([m] + rest, sep) == m + sep + Join(rest, sep)
  {
    var parts := [m] + rest;
    JoinCons(parts, sep);
    assert parts[1..] == rest;
  }

  lemma Reassociate(first: string, a: string, b: string, t: string)
    ensures first + "," + ((a + "," + b) + "," + t) == first + [','] + (a + [','] + (b + [','] + t))
  {
  }
}
