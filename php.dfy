/** PHP truthiness and the built-in string functions behind the checker:
    substr_count, trim and rtrim with a character list, explode and
    str_replace, which it calls itself; ltrim, the first half of trim;
    strpos, strrpos and substr_replace, which Laravel's Str helpers call;
    and implode, the inverse of explode. Strings are byte strings in PHP;
    here they are sequences of characters. */
module Php {

  /** A value, or its absence: PHP's null for a string-or-null, or the
      `false` that strpos and strrpos return when there is no match. */
  datatype Option<T> = None | Some(value: T)

  /** PHP's truth value of a string-or-null: null, "" and "0" are false. */
  predicate Truthy(v: Option<string>)
  {
    v.Some? && v.value != "" && v.value != "0"
  }

  /** substr_count(s, c) for a one-character needle. */
  function CountChar(s: string, c: char): (n: nat)
    ensures n <= |s|
  {
    if s == [] then 0 else (if s[0] == c then 1 else 0) + CountChar(s[1..], c)
  }

  /** The count is zero exactly when the character does not occur. */
  lemma {:induction false} CountCharZero(s: string, c: char)
    ensures CountChar(s, c) == 0 <==> c !in s
  {
    if s != [] {
      CountCharZero(s[1..], c);
      assert s == [s[0]] + s[1..];
    }
  }

  lemma {:induction false} CountCharAppend(a: string, b: string, c: char)
    ensures CountChar(a + b, c) == CountChar(a, c) + CountChar(b, c)
  {
    if a == [] {
      assert a + b == b;
    } else {
      assert (a + b)[1..] == a[1..] + b;
      CountCharAppend(a[1..], b, c);
    }
  }

  /** ltrim(s, chars): drops the leading characters that are in `chars`. */
  function TrimLeft(s: string, chars: set<char>): (r: string)
    ensures |r| <= |s|
    ensures r != [] ==> r[0] !in chars
  {
    if s != [] && s[0] in chars then TrimLeft(s[1..], chars) else s
  }

  /** rtrim(s, chars): drops the trailing characters that are in `chars`. */
  function TrimRight(s: string, chars: set<char>): (r: string)
    ensures |r| <= |s|
    ensures r != [] ==> r[|r| - 1] !in chars
  {
    if s != [] && s[|s| - 1] in chars then TrimRight(s[..|s| - 1], chars) else s
  }

  /** rtrim keeps a prefix of its argument. */
  lemma {:induction false} TrimRightPrefix(s: string, chars: set<char>)
    ensures TrimRight(s, chars) == s[..|TrimRight(s, chars)|]
  {
    if s != [] && s[|s| - 1] in chars {
      TrimRightPrefix(s[..|s| - 1], chars);
    }
  }

  /** trim(s, chars): both ends. Afterwards neither end is in `chars`. */
  function Trim(s: string, chars: set<char>): (r: string)
    ensures r != [] ==> r[0] !in chars && r[|r| - 1] !in chars
  {
    var left := TrimLeft(s, chars);
    TrimRightPrefix(left, chars);
    assert TrimRight(left, chars) != [] ==> TrimRight(left, chars)[0] == left[0];
    TrimRight(left, chars)
  }

  /** A string whose ends are not in `chars` is left as it is; hence
      trimming twice trims no more than once. */
  lemma TrimUntrimmed(s: string, chars: set<char>)
    requires s == [] || (s[0] !in chars && s[|s| - 1] !in chars)
    ensures Trim(s, chars) == s
  {
  }

  lemma TrimIdempotent(s: string, chars: set<char>)
    ensures Trim(Trim(s, chars), chars) == Trim(s, chars)
  {
    TrimUntrimmed(Trim(s, chars), chars);
  }

  /** ltrim keeps a suffix of its argument, and what it drops is in `chars`. */
  lemma {:induction false} TrimLeftSuffix(s: string, chars: set<char>)
    ensures TrimLeft(s, chars) == s[|s| - |TrimLeft(s, chars)|..]
    ensures forall i :: 0 <= i < |s| - |TrimLeft(s, chars)| ==> s[i] in chars
  {
    if s != [] && s[0] in chars {
      TrimLeftSuffix(s[1..], chars);
    }
  }

  /** What rtrim drops is in `chars`. */
  lemma {:induction false} TrimRightDropped(s: string, chars: set<char>)
    ensures forall i :: |TrimRight(s, chars)| <= i < |s| ==> s[i] in chars
  {
    if s != [] && s[|s| - 1] in chars {
      TrimRightDropped(s[..|s| - 1], chars);
    }
  }

  /** trim keeps a middle segment of its argument: the characters before and
      after it are all in `chars`. With the ends property of Trim itself,
      this says that trim strips the longest such prefix and suffix. */
  lemma TrimSurrounds(s: string, chars: set<char>)
    ensures var n := |s| - |TrimLeft(s, chars)|;
      var t := Trim(s, chars);
      && n + |t| <= |s|
      && s == s[..n] + t + s[n + |t|..]
      && (forall i :: 0 <= i < n ==> s[i] in chars)
      && (forall i :: n + |t| <= i < |s| ==> s[i] in chars)
  {
    var left := TrimLeft(s, chars);
    var n := |s| - |left|;
    var t := TrimRight(left, chars);
    assert left == s[n..] && forall i :: 0 <= i < n ==> s[i] in chars by {
      TrimLeftSuffix(s, chars);
    }
    assert t == left[..|t|] && forall i :: |t| <= i < |left| ==> left[i] in chars by {
      TrimRightPrefix(left, chars);
      TrimRightDropped(left, chars);
    }
    SplitThree(s, n, |t|);
    forall i | n + |t| <= i < |s|
      ensures s[i] in chars
    {
      assert s[i] == left[i - n];
    }
  }

  /** Cutting a sequence at two offsets and joining the pieces gives it back. */
  lemma SplitThree<T>(s: seq<T>, n: nat, m: nat)
    requires n + m <= |s|
    ensures s == s[..n] + s[n..][..m] + s[n + m..]
  {
    assert s[n..][..m] == s[n..n + m];
  }

  /** ltrim drops a prefix made of `chars` in front of a string that does
      not start with one of them. */
  lemma {:induction false} TrimLeftDrops(p: string, m: string, chars: set<char>)
    requires forall i :: 0 <= i < |p| ==> p[i] in chars
    requires m == [] || m[0] !in chars
    ensures TrimLeft(p + m, chars) == m
  {
    if p == [] {
      assert p + m == m;
    } else {
      assert (p + m)[1..] == p[1..] + m;
      TrimLeftDrops(p[1..], m, chars);
    }
  }

  /** rtrim drops a suffix made of `chars` behind a string that does not end
      with one of them. */
  lemma {:induction false} TrimRightDrops(m: string, q: string, chars: set<char>)
    requires forall i :: 0 <= i < |q| ==> q[i] in chars
    requires m == [] || m[|m| - 1] !in chars
    ensures TrimRight(m + q, chars) == m
  {
    if q == [] {
      assert m + q == m;
    } else {
      var front := q[..|q| - 1];
      assert (m + q)[..|m + q| - 1] == m + front;
      TrimRightDrops(m, front, chars);
    }
  }

  /** Conversely, a string surrounded by characters of `chars` and whose
      ends are not in `chars` is exactly what trim leaves. */
  lemma TrimOf(p: string, m: string, q: string, chars: set<char>)
    requires forall i :: 0 <= i < |p| ==> p[i] in chars
    requires forall i :: 0 <= i < |q| ==> q[i] in chars
    requires m == [] || (m[0] !in chars && m[|m| - 1] !in chars)
    ensures Trim(p + m + q, chars) == m
  {
    if m == [] {
      assert p + m + q == (p + q) + [];
      TrimLeftDrops(p + q, [], chars);
    } else {
      assert p + m + q == p + (m + q);
      TrimLeftDrops(p, m + q, chars);
      TrimRightDrops(m, q, chars);
    }
  }

  /** Trimming keeps every occurrence of a character outside `chars`. */
  lemma TrimKeepsCount(s: string, chars: set<char>, c: char)
    requires c !in chars
    ensures CountChar(Trim(s, chars), c) == CountChar(s, c)
  {
    TrimLeftKeepsCount(s, chars, c);
    TrimRightKeepsCount(TrimLeft(s, chars), chars, c);
  }

  lemma {:induction false} TrimLeftKeepsCount(s: string, chars: set<char>, c: char)
    requires c !in chars
    ensures CountChar(TrimLeft(s, chars), c) == CountChar(s, c)
  {
    if s != [] && s[0] in chars {
      TrimLeftKeepsCount(s[1..], chars, c);
    }
  }

  lemma {:induction false} TrimRightKeepsCount(s: string, chars: set<char>, c: char)
    requires c !in chars
    ensures CountChar(TrimRight(s, chars), c) == CountChar(s, c)
  {
    if s != [] && s[|s| - 1] in chars {
      var front := s[..|s| - 1];
      TrimRightKeepsCount(front, chars, c);
      assert s == front + [s[|s| - 1]];
      CountCharAppend(front, [s[|s| - 1]], c);
    }
  }

  /** explode(d, s) for a one-character delimiter: the pieces between the
      delimiters, one more than there are delimiters. */
  function Explode(d: char, s: string): (parts: seq<string>)
    ensures |parts| == CountChar(s, d) + 1
  {
    if s == [] then [""]
    else
      var rest := Explode(d, s[1..]);
      if s[0] == d then [""] + rest else [[s[0]] + rest[0]] + rest[1..]
  }

  /** No piece of an explode holds the delimiter. */
  lemma {:induction false} ExplodePieces(d: char, s: string)
    ensures forall k :: 0 <= k < |Explode(d, s)| ==> d !in Explode(d, s)[k]
  {
    if s != [] {
      ExplodePieces(d, s[1..]);
    }
  }

  /** implode(d, parts), the inverse of explode. */
  function Implode(d: char, parts: seq<string>): string
  {
    if |parts| == 0 then ""
    else if |parts| == 1 then parts[0]
    else parts[0] + [d] + Implode(d, parts[1..])
  }

  lemma {:induction false} ImplodeExplode(d: char, s: string)
    ensures Implode(d, Explode(d, s)) == s
  {
    if s != [] {
      var rest := Explode(d, s[1..]);
      ImplodeExplode(d, s[1..]);
      if s[0] == d {
        assert ([""] + rest)[1..] == rest;
      } else {
        var parts := [[s[0]] + rest[0]] + rest[1..];
        assert parts[1..] == rest[1..];
        if |rest| > 1 {
          assert Implode(d, rest) == rest[0] + [d] + Implode(d, rest[1..]);
        }
      }
    }
  }

  /** Exploding a concatenation at a delimiter splits into the two halves. */
  lemma {:induction false} ExplodeSplit(d: char, a: string, b: string)
    ensures Explode(d, a + [d] + b) == Explode(d, a) + Explode(d, b)
  {
    if a == [] {
      assert a + [d] + b == [d] + b;
      assert ([d] + b)[1..] == b;
    } else {
      assert (a + [d] + b)[1..] == a[1..] + [d] + b;
      ExplodeSplit(d, a[1..], b);
    }
  }

  /** Exploding a string without the delimiter yields the string itself. */
  lemma {:induction false} ExplodeWithout(d: char, a: string)
    requires d !in a
    ensures Explode(d, a) == [a]
  {
    if a != [] {
      ExplodeWithout(d, a[1..]);
      assert [a[0]] + a[1..] == a;
    }
  }

  /** `needle` occurs in `s` at offset k. */
  predicate OccursAt(s: string, needle: string, k: nat)
  {
    k + |needle| <= |s| && s[k..k + |needle|] == needle
  }

  /** strpos(s, needle): the first offset where `needle` occurs. */
  function FindFirst(s: string, needle: string): (r: Option<nat>)
    ensures r.Some? ==> OccursAt(s, needle, r.value)
    ensures forall k: nat :: (r.None? || k < r.value) ==> !OccursAt(s, needle, k)
    decreases |s|
  {
    if |s| < |needle| then None
    else if s[..|needle|] == needle then Some(0)
    else
      var rest := FindFirst(s[1..], needle);
      assert forall k: nat :: OccursAt(s, needle, k + 1) ==> OccursAt(s[1..], needle, k) by {
        forall k: nat | OccursAt(s, needle, k + 1) ensures OccursAt(s[1..], needle, k) {
          assert k + |needle| <= |s[1..]|;
          assert s[1..][k..k + |needle|] == s[k + 1..k + 1 + |needle|];
        }
      }
      if rest.None? then
        assert forall k: nat :: !OccursAt(s, needle, k) by {
          forall k: nat ensures !OccursAt(s, needle, k) {
            if k > 0 { assert !OccursAt(s[1..], needle, k - 1); }
          }
        }
        None
      else
        assert OccursAt(s, needle, rest.value + 1) by {
          assert s[1..][rest.value..rest.value + |needle|] == s[rest.value + 1..rest.value + 1 + |needle|];
        }
        assert forall k: nat :: k < rest.value + 1 ==> !OccursAt(s, needle, k) by {
          forall k: nat | k < rest.value + 1 ensures !OccursAt(s, needle, k) {
            if k > 0 { assert !OccursAt(s[1..], needle, k - 1); }
          }
        }
        Some(rest.value + 1)
  }

  /** strrpos(s, needle): the last offset where `needle` occurs. */
  function FindLast(s: string, needle: string): (r: Option<nat>)
    ensures r.Some? ==> OccursAt(s, needle, r.value)
    ensures forall k: nat :: (r.None? || r.value < k) ==> !OccursAt(s, needle, k)
    decreases |s|
  {
    if |s| < |needle| then None
    else if OccursAt(s, needle, |s| - |needle|) then Some(|s| - |needle|)
    else
      var shorter := s[..|s| - 1];
      var rest := FindLast(shorter, needle);
      assert forall k: nat :: OccursAt(s, needle, k) && k + |needle| < |s| ==> OccursAt(shorter, needle, k) by {
        forall k: nat | OccursAt(s, needle, k) && k + |needle| < |s| ensures OccursAt(shorter, needle, k) {
          assert shorter[k..k + |needle|] == s[k..k + |needle|];
        }
      }
      if rest.Some? then
        assert OccursAt(s, needle, rest.value) by {
          assert shorter[rest.value..rest.value + |needle|] == s[rest.value..rest.value + |needle|];
        }
        rest
      else
        None
  }

  /** substr_replace(s, replace, pos, len). */
  function SubstrReplace(s: string, replace: string, pos: nat, len: nat): (r: string)
    requires pos + len <= |s|
    ensures |r| == |s| - len + |replace|
    ensures r[..pos] == s[..pos] && r[pos + |replace|..] == s[pos + len..]
  {
    s[..pos] + replace + s[pos + len..]
  }

  /** str_replace(search, replace, subject): every occurrence, scanned from
      the left without overlaps; an empty `search` leaves `subject` alone. */
  function StrReplace(search: string, replace: string, subject: string): (r: string)
    ensures forall c :: c in r ==> c in subject || c in replace
    decreases |subject|
  {
    if search == [] || |subject| < |search| then subject
    else if subject[..|search|] == search then
      var rest := StrReplace(search, replace, subject[|search|..]);
      assert forall c :: c in subject[|search|..] ==> c in subject;
      replace + rest
    else
      var rest := StrReplace(search, replace, subject[1..]);
      assert forall c :: c in subject[1..] ==> c in subject;
      [subject[0]] + rest
  }

  /** Replacing a single character by a string without it removes every
      occurrence of that character. */
  lemma {:induction false} StrReplaceRemovesChar(c: char, replace: string, subject: string)
    ensures c !in replace ==> c !in StrReplace([c], replace, subject)
    decreases |subject|
  {
    if |subject| >= 1 && c !in replace {
      if subject[..1] == [c] {
        StrReplaceRemovesChar(c, replace, subject[1..]);
      } else {
        assert subject[0] != c by { assert subject[..1] == [subject[0]]; }
        StrReplaceRemovesChar(c, replace, subject[1..]);
      }
    }
  }
}
