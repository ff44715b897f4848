/** Character and string helpers shared by the model: whitespace, trimming,
    ASCII case mapping, searching and splitting, with the behaviour of the
    Rust `str`/`char` methods the source calls. */
module Text {
  import opened Wrappers

  /** Rust's `char::is_whitespace`: the Unicode White_Space property. */
  predicate IsWhitespace(c: char) {
    var n := c as int;
    (9 <= n <= 13) || n == 0x20 || n == 0x85 || n == 0xA0 || n == 0x1680
    || (0x2000 <= n <= 0x200A) || n == 0x2028 || n == 0x2029 || n == 0x202F
    || n == 0x205F || n == 0x3000
  }

  /** `str::trim_start`: drops the leading whitespace and nothing else. */
  function TrimStart(s: string): (r: string)
    ensures |r| <= |s| && r == s[|s| - |r|..]
    ensures r == [] || !IsWhitespace(r[0])
    ensures forall i :: 0 <= i < |s| - |r| ==> IsWhitespace(s[i])
  {
    if s != [] && IsWhitespace(s[0]) then TrimStart(s[1..]) else s
  }

  /** `str::trim_end`: drops the trailing whitespace and nothing else. */
  function TrimEnd(s: string): (r: string)
    ensures |r| <= |s| && r == s[..|r|]
    ensures r == [] || !IsWhitespace(r[|r| - 1])
    ensures forall i :: |r| <= i < |s| ==> IsWhitespace(s[i])
  {
    if s != [] && IsWhitespace(s[|s| - 1]) then TrimEnd(s[..|s| - 1]) else s
  }

  /** `str::trim`. */
  function Trim(s: string): (r: string)
    ensures r == [] || (!IsWhitespace(r[0]) && !IsWhitespace(r[|r| - 1]))
  {
    TrimEnd(TrimStart(s))
  }

  /** Trimming keeps only characters of the input. */
  lemma TrimMembers(s: string, c: char)
    requires c in Trim(s)
    ensures c in s
  {
    var t := TrimStart(s);
    assert Trim(s) == TrimEnd(t) == t[..|TrimEnd(t)|];
    assert t == s[|s| - |t|..];
  }

  /** `str::trim` keeps a string that neither starts nor ends with whitespace. */
  lemma TrimKeeps(s: string)
    requires s == [] || (!IsWhitespace(s[0]) && !IsWhitespace(s[|s| - 1]))
    ensures Trim(s) == s
  {
  }

  predicate IsAsciiLower(c: char) { 'a' <= c <= 'z' }
  predicate IsAsciiUpper(c: char) { 'A' <= c <= 'Z' }

  /** Upper-casing, restricted to the ASCII letters. */
  function ToUpper(c: char): (r: char)
    ensures !IsAsciiLower(r)
    ensures if IsAsciiLower(c) then IsAsciiUpper(r) && r as int == c as int - 32 else r == c
  {
    if IsAsciiLower(c) then (c as int - 32) as char else c
  }

  /** Lower-casing, restricted to the ASCII letters. */
  function ToLower(c: char): (r: char)
    ensures !IsAsciiUpper(r)
    ensures if IsAsciiUpper(c) then IsAsciiLower(r) && r as int == c as int + 32 else r == c
  {
    if IsAsciiUpper(c) then (c as int + 32) as char else c
  }

  /** `str::to_uppercase`, restricted to the ASCII letters. */
  function Upper(s: string): (r: string)
    ensures |r| == |s|
    ensures forall i :: 0 <= i < |s| ==> r[i] == ToUpper(s[i])
  {
    if s == [] then [] else [ToUpper(s[0])] + Upper(s[1..])
  }

  /** The position of the first occurrence of `c` in `s`, if any. */
  function IndexOf(s: string, c: char): (r: Option<nat>)
    ensures r.None? <==> c !in s
    ensures r.Some? ==> r.value < |s| && s[r.value] == c && c !in s[..r.value]
  {
    if s == [] then None
    else if s[0] == c then Some(0)
    else match IndexOf(s[1..], c)
      case None => None
      case Some(i) => Some(i + 1)
  }

  /** `str::split_once(c)`: the text before and after the first `c`. */
  function SplitOnce(s: string, c: char): (r: Option<(string, string)>)
    ensures r.None? <==> c !in s
    ensures r.Some? ==> s == r.value.0 + [c] + r.value.1 && c !in r.value.0
  {
    match IndexOf(s, c)
    case None => None
    case Some(i) => Some((s[..i], s[i + 1..]))
  }

  predicate StartsWith(s: string, prefix: string) {
    |prefix| <= |s| && s[..|prefix|] == prefix
  }

  /** `sub` occurs in `s` starting at position `i`. */
  predicate OccursAt(s: string, sub: string, i: int) {
    0 <= i <= |s| - |sub| && s[i..i + |sub|] == sub
  }

  /** `str::contains` with a string pattern. */
  function Contains(s: string, sub: string): (b: bool)
    ensures b <==> exists i :: OccursAt(s, sub, i)
  {
    if |sub| > |s| then false
    else if s[..|sub|] == sub then assert OccursAt(s, sub, 0); true
    else
      var b := Contains(s[1..], sub);
      assert b ==> exists i :: OccursAt(s, sub, i) by {
        if b {
          var i :| OccursAt(s[1..], sub, i);
          assert s[i + 1..i + 1 + |sub|] == s[1..][i..i + |sub|];
          assert OccursAt(s, sub, i + 1);
        }
      }
      assert (exists i :: OccursAt(s, sub, i)) ==> b by {
        if i :| OccursAt(s, sub, i) {
          assert i != 0;
          assert s[1..][i - 1..i - 1 + |sub|] == s[i..i + |sub|];
          assert OccursAt(s[1..], sub, i - 1);
        }
      }
      b
  }

  /** `str::replace(from, to)` for single characters. */
  function ReplaceChar(s: string, from: char, to: char): (r: string)
    ensures |r| == |s| && from != to ==> from !in r
    ensures forall i :: 0 <= i < |s| ==> |r| == |s| && r[i] == (if s[i] == from then to else s[i])
  {
    if s == [] then [] else [if s[0] == from then to else s[0]] + ReplaceChar(s[1..], from, to)
  }

  /** The characters after a replacement: those of `s` other than `from`,
      and `to` when `from` occurred. */
  lemma ReplaceCharMembers(s: string, from: char, to: char)
    ensures forall c :: c in ReplaceChar(s, from, to) <==> (c in s && c != from) || (c == to && from in s)
  {
    var r := ReplaceChar(s, from, to);
    forall c | c in r ensures (c in s && c != from) || (c == to && from in s) {
      var i :| 0 <= i < |r| && r[i] == c;
      assert s[i] in s;
    }
    forall c | (c in s && c != from) || (c == to && from in s) ensures c in r {
      var i :| 0 <= i < |s| && s[i] == (if c in s && c != from then c else from);
      assert r[i] == c;
    }
  }

  /** `str::replace(c, "")`: every occurrence of `c` deleted, the rest kept in order. */
  function RemoveChar(s: string, c: char): (r: string)
    ensures c !in r
    ensures forall d :: d != c ==> (d in r <==> d in s)
    ensures |r| <= |s|
  {
    if s == [] then []
    else if s[0] == c then RemoveChar(s[1..], c)
    else [s[0]] + RemoveChar(s[1..], c)
  }

  /** A line with a trailing carriage return removed, as `str::lines` does. */
  function StripCr(line: string): string {
    if line != [] && line[|line| - 1] == '\r' then line[..|line| - 1] else line
  }

  /** `str::lines`: split at '\n' (dropping a '\r' just before it); a final
      line ending does not start an extra empty line. */
  function Lines(s: string): (r: seq<string>)
    ensures s == [] <==> r == []
    ensures forall k :: 0 <= k < |r| ==> '\n' !in r[k]
  {
    if s == [] then []
    else match IndexOf(s, '\n')
      case None => [s]
      case Some(i) =>
        assert '\n' !in s[..i];
        assert forall c :: c in StripCr(s[..i]) ==> c in s[..i];
        [StripCr(s[..i])] + Lines(s[i + 1..])
  }

  /** `str::split(sep)`: the pieces between separators, at least one. */
  function Split(s: string, sep: char): (r: seq<string>)
    ensures |r| >= 1
    ensures forall k :: 0 <= k < |r| ==> sep !in r[k]
    decreases |s|
  {
    match IndexOf(s, sep)
    case None => [s]
    case Some(i) => [s[..i]] + Split(s[i + 1..], sep)
  }

  /** `join(sep)`: the pieces with `sep` between each pair. */
  function Join(ws: seq<string>, sep: string): string {
    if |ws| == 0 then [] else if |ws| == 1 then ws[0] else ws[0] + sep + Join(ws[1..], sep)
  }

  /** Splitting then joining with the same separator gives back the input. */
  lemma {:induction false} SplitJoin(s: string, sep: char)
    ensures Join(Split(s, sep), [sep]) == s
    decreases |s|
  {
    match IndexOf(s, sep)
    case None =>
    case Some(i) =>
      var rest := Split(s[i + 1..], sep);
      SplitJoin(s[i + 1..], sep);
      assert ([s[..i]] + rest)[1..] == rest;
      assert s == s[..i] + [sep] + s[i + 1..];
  }

  /** Some piece contains `c`. */
  predicate InSome(ws: seq<string>, c: char) {
    exists k :: 0 <= k < |ws| && c in ws[k]
  }

  /** Apart from the separator, the characters of a join are those of its pieces. */
  lemma {:induction false} JoinMember(ws: seq<string>, sep: string, c: char)
    requires c !in sep
    ensures c in Join(ws, sep) <==> InSome(ws, c)
  {
    if |ws| >= 2 {
      JoinMember(ws[1..], sep, c);
      if InSome(ws, c) && c !in ws[0] {
        var k :| 0 <= k < |ws| && c in ws[k];
        assert c in ws[1..][k - 1];
      }
      if InSome(ws[1..], c) {
        var k :| 0 <= k < |ws[1..]| && c in ws[1..][k];
        assert c in ws[k + 1];
      }
    } else if |ws| == 1 {
      if InSome(ws, c) {
        var k :| 0 <= k < |ws| && c in ws[k];
        assert k == 0;
      }
    }
  }

  lemma InSomeCons(w: string, ws: seq<string>)
    ensures forall c :: InSome([w] + ws, c) <==> c in w || InSome(ws, c)
  {
    forall c ensures InSome([w] + ws, c) <==> c in w || InSome(ws, c) {
      if InSome([w] + ws, c) && c !in w {
        var k :| 0 <= k < |[w] + ws| && c in ([w] + ws)[k];
        assert c in ws[k - 1];
      }
      if InSome(ws, c) {
        var k :| 0 <= k < |ws| && c in ws[k];
        assert c in ([w] + ws)[k + 1];
      }
      if c in w {
        assert c in ([w] + ws)[0];
      }
    }
  }

  /** `filter(|s| !s.is_empty())` on pieces. */
  function NonEmpty(ws: seq<string>): (r: seq<string>)
    ensures forall k :: 0 <= k < |r| ==> r[k] != [] && r[k] in ws
    ensures forall c :: InSome(r, c) <==> InSome(ws, c)
  {
    if ws == [] then []
    else
      var rest := NonEmpty(ws[1..]);
      assert ws == [ws[0]] + ws[1..];
      InSomeCons(ws[0], ws[1..]);
      if ws[0] == [] then rest
      else
        InSomeCons(ws[0], rest);
        [ws[0]] + rest
  }

  /** No leading, trailing or doubled space. */
  predicate SingleSpaced(t: string) {
    && (t != [] ==> t[0] != ' ' && t[|t| - 1] != ' ')
    && forall i :: 0 <= i < |t| - 1 ==> !(t[i] == ' ' && t[i + 1] == ' ')
  }

  lemma {:induction false} JoinSingleSpaced(ws: seq<string>)
    requires forall k :: 0 <= k < |ws| ==> ws[k] != [] && ' ' !in ws[k]
    ensures SingleSpaced(Join(ws, " "))
    ensures |ws| > 0 ==> Join(ws, " ") != []
  {
    if |ws| >= 2 {
      JoinSingleSpaced(ws[1..]);
      var w := ws[0];
      var rest := Join(ws[1..], " ");
      var t := w + " " + rest;
      assert ' ' !in w;
      forall i | 0 <= i < |t| - 1 ensures !(t[i] == ' ' && t[i + 1] == ' ') {
        if i < |w| {
          assert t[i] == w[i];
        } else if i == |w| {
          assert t[i + 1] == rest[0];
        } else {
          assert t[i] == rest[i - |w| - 1] && t[i + 1] == rest[i - |w|];
        }
      }
      assert t[0] == w[0] && t[|t| - 1] == rest[|rest| - 1];
    } else if |ws| == 1 {
      assert ' ' !in ws[0];
      assert ws[0][0] in ws[0] && ws[0][|ws[0]| - 1] in ws[0];
    }
  }

  /** Step 3 of the name normaliser: split at spaces, drop empty pieces, join with one space. */
  function Collapse(s: string): (r: string)
    ensures SingleSpaced(r)
    ensures forall c :: c != ' ' ==> (c in r <==> c in s)
  {
    var pieces := Split(s, ' ');
    var words := NonEmpty(pieces);
    JoinSingleSpaced(words);
    SplitJoin(s, ' ');
    forall c | c != ' ' ensures c in Join(words, " ") <==> c in s {
      JoinMember(words, " ", c);
      JoinMember(pieces, " ", c);
    }
    Join(words, " ")
  }
}
