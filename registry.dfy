/**
 * The participant registry of the wheel: adding a typed name (rejected when it
 * is blank after JavaScript's `trim()`) and removing the entry at an index
 * (JavaScript's `filter` on the position).
 */
module Registry {
  import opened Palette

  /**
   * The characters JavaScript's `String.prototype.trim` strips: the ECMAScript
   * WhiteSpace and LineTerminator code points.
   */
  predicate IsJsWhitespace(c: char) {
    c == '\t' || c == '\n' || c == '\U{000B}' || c == '\U{000C}' || c == '\r' || c == ' '
    || c == '\U{00A0}' || c == '\U{1680}' || ('\U{2000}' <= c <= '\U{200A}')
    || c == '\U{2028}' || c == '\U{2029}' || c == '\U{202F}' || c == '\U{205F}'
    || c == '\U{3000}' || c == '\U{FEFF}'
  }

  /** Every character of `s` is whitespace. */
  predicate AllWhitespace(s: string) {
    forall i :: 0 <= i < |s| ==> IsJsWhitespace(s[i])
  }

  /** `s` without its leading whitespace. */
  function TrimStart(s: string): (r: string)
    ensures |r| <= |s| && r == s[|s| - |r|..]
    ensures forall i :: 0 <= i < |s| - |r| ==> IsJsWhitespace(s[i])
    ensures r == [] || !IsJsWhitespace(r[0])
  {
    if |s| > 0 && IsJsWhitespace(s[0]) then
      var r := TrimStart(s[1..]);
      assert s[|s| - |r|..] == s[1..][|s| - 1 - |r|..];
      r
    else s
  }

  /** `s` without its trailing whitespace. */
  function TrimEnd(s: string): (r: string)
    ensures |r| <= |s| && r == s[..|r|]
    ensures forall i :: |r| <= i < |s| ==> IsJsWhitespace(s[i])
    ensures r == [] || !IsJsWhitespace(r[|r| - 1])
  {
    if |s| > 0 && IsJsWhitespace(s[|s| - 1]) then
      var r := TrimEnd(s[..|s| - 1]);
      assert r == s[..|r|];
      r
    else s
  }

  /** JavaScript's `s.trim()`: no longer than `s`, and neither starting nor ending with whitespace. */
  function Trim(s: string): (r: string)
    ensures |r| <= |s|
    ensures r == [] || (!IsJsWhitespace(r[0]) && !IsJsWhitespace(r[|r| - 1]))
  {
    var t := TrimStart(s);
    var r := TrimEnd(t);
    assert r != [] ==> r[0] == t[0];
    r
  }

  /** The trimmed name is empty (falsy in JavaScript) exactly when the name is all whitespace. */
  lemma TrimEmptyIffBlank(s: string)
    ensures Trim(s) == [] <==> AllWhitespace(s)
  {
    var t := TrimStart(s);
    var k := |s| - |t|;
    if t == [] {
      assert s == s[..k];
    } else {
      assert s[k] == t[0];
    }
  }

  /**
   * `trim()` removes exactly the leading and trailing whitespace: the result is
   * the part of the name between a whitespace-only prefix and a
   * whitespace-only suffix.
   */
  lemma TrimKeepsMiddle(s: string)
    ensures exists k :: (0 <= k <= |s| - |Trim(s)| && Trim(s) == s[k..k + |Trim(s)|]
      && AllWhitespace(s[..k]) && AllWhitespace(s[k + |Trim(s)|..]))
  {
    var t := TrimStart(s);
    MiddleBetweenBlanks(s, t, Trim(s), |s| - |t|);
  }

  /** A prefix `r` of the suffix `t == s[k..]` sits between `s[..k]` and the rest of `t`. */
  lemma MiddleBetweenBlanks(s: string, t: string, r: string, k: nat)
    requires k <= |s| && t == s[k..] && |r| <= |t| && r == t[..|r|]
    requires forall i :: 0 <= i < k ==> IsJsWhitespace(s[i])
    requires forall i :: |r| <= i < |t| ==> IsJsWhitespace(t[i])
    ensures exists k :: (0 <= k <= |s| - |r| && r == s[k..k + |r|]
      && AllWhitespace(s[..k]) && AllWhitespace(s[k + |r|..]))
  {
    var p := s[..k];
    assert forall i :: 0 <= i < |p| ==> p[i] == s[i];
    var u := s[k + |r|..];
    assert forall i :: 0 <= i < |u| ==> u[i] == t[|r| + i];
    assert 0 <= k <= |s| - |r| && r == s[k..k + |r|] && AllWhitespace(p) && AllWhitespace(u);
  }

  /**
   * The registry after the add button: a name that is blank after trimming is
   * ignored; otherwise the name, untrimmed, is appended with the next colour.
   * The guard `name.trim()` is truthy exactly when the name has a character
   * that is not whitespace (`TrimEmptyIffBlank`), and is stated that way here.
   */
  function Added(ps: seq<Participant>, name: string): (r: seq<Participant>)
    ensures AllWhitespace(name) ==> r == ps
    ensures !AllWhitespace(name) ==>
      |r| == |ps| + 1 && r[..|ps|] == ps && r[|ps|] == Participant(name, ColorAt(|ps|))
  {
    if !AllWhitespace(name) then ps + [Participant(name, ColorAt(|ps|))] else ps
  }

  /** `s.filter((_, i) => i !== index)`: keeps every entry whose position is not `index`. */
  function Without<T>(s: seq<T>, index: int): (r: seq<T>)
    ensures |r| == if 0 <= index < |s| then |s| - 1 else |s|
  {
    if s == [] then []
    else (if index == 0 then [] else [s[0]]) + Without(s[1..], index - 1)
  }

  /**
   * Removing by position deletes exactly the entry at an in-range index and
   * keeps the others, records (and so colours) included, in their order; an
   * out-of-range index changes nothing.
   */
  lemma {:induction false} WithoutDeletes<T>(s: seq<T>, index: int)
    ensures 0 <= index < |s| ==> Without(s, index) == s[..index] + s[index + 1..]
    ensures !(0 <= index < |s|) ==> Without(s, index) == s
  {
    if s != [] {
      WithoutDeletes(s[1..], index - 1);
      if index == 0 {
        assert s[1..] == s[..0] + s[1..];
      } else if 0 < index < |s| {
        assert s[..index] == [s[0]] + s[1..][..index - 1];
        assert s[index + 1..] == s[1..][index..];
      } else {
        assert s == [s[0]] + s[1..];
      }
    }
  }

  /** Every entry that survives a removal is an unchanged entry of the old registry. */
  lemma RemainingEntriesUnchanged<T>(s: seq<T>, index: int, j: int)
    requires 0 <= index < |s| && 0 <= j < |s| - 1
    ensures Without(s, index)[j] == s[if j < index then j else j + 1]
  {
    WithoutDeletes(s, index);
  }

  /**
   * Adding a name and then removing entry 0 gives back the previous length;
   * the added entry is the one removed only when the registry was empty.
   */
  lemma AddThenRemoveFirst(ps: seq<Participant>, name: string)
    requires !AllWhitespace(name)
    ensures |Without(Added(ps, name), 0)| == |ps|
    ensures ps == [] ==> Without(Added(ps, name), 0) == []
    ensures ps != [] ==> Without(Added(ps, name), 0)[|ps| - 1] == Participant(name, ColorAt(|ps|))
  {
    var r := Added(ps, name);
    WithoutDeletes(r, 0);
  }

  /** Removing the entry just added restores the registry: removal undoes an accepted add. */
  lemma RemoveUndoesAdd(ps: seq<Participant>, name: string)
    ensures Without(Added(ps, name), |ps|) == ps
  {
    if AllWhitespace(name) {
      WithoutDeletes(ps, |ps|);
    } else {
      var r := Added(ps, name);
      WithoutDeletes(r, |ps|);
      assert r[..|ps|] == ps;
    }
  }
}
