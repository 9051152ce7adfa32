/**
  The two buffer decoders of the ONNX Runtime wrapper: GetAttrStrings, which walks
  NUL-terminated strings, and GetOutputNamesHelper, which cuts a buffer by lengths.

  What the C API fills the buffers with is a parameter.
 */
module Decoders {
  const NUL: char := '\0'

  // ---------------------------------------------------------------- NUL-terminated strings

  /** The strings, each with its terminator. */
  function Encode(strings: seq<string>): string {
    if strings == [] then "" else strings[0] + [NUL] + Encode(strings[1..])
  }

  ghost predicate NulFree(strings: seq<string>) {
    forall s <- strings :: NUL !in s
  }

  /** The buffers whose last string is terminated: the walk stays inside these and no others. */
  predicate Terminated(chars: string) {
    chars == "" || chars[|chars| - 1] == NUL
  }

  /** std::string(const char*): the bytes from start up to the next NUL. */
  function CString(chars: string, start: nat): (s: string)
    requires start < |chars| && Terminated(chars)
    ensures start + |s| < |chars| && chars[start + |s|] == NUL
    ensures s == chars[start..start + |s|] && NUL !in s
    decreases |chars| - start
  {
    if chars[start] == NUL then "" else [chars[start]] + CString(chars, start + 1)
  }

  /** ReadOpAttr with room for len bytes: it fails exactly when the attribute needs more, and reports the need. */
  datatype Read = TooSmall(need: nat) | Filled(bytes: string)

  function ReadOpAttr(attribute: string, len: nat): Read {
    if |attribute| > len then TooSmall(|attribute|) else Filled(attribute)
  }

  lemma {:induction false} EncodeAppend(strings: seq<string>, s: string)
    ensures Encode(strings + [s]) == Encode(strings) + s + [NUL]
  {
    if strings == [] {
      assert strings + [s] == [s];
    } else {
      assert (strings + [s])[1..] == strings[1..] + [s];
      EncodeAppend(strings[1..], s);
    }
  }

  /** The pointer walk over a buffer. */
  method Walk(chars: string) returns (strings: seq<string>)
    requires Terminated(chars)
    ensures NulFree(strings) && Encode(strings) == chars
  {
    strings := [];
    EncodeAppend(strings, "");
    var st := 0;
    while st < |chars|
      invariant st <= |chars|
      invariant NulFree(strings) && Encode(strings) == chars[..st]
      invariant st < |chars| ==> Terminated(chars[st..])
    {
      var s := CString(chars, st);
      ghost var before := strings;
      strings := strings + [s];
      ghost var start := st;
      while chars[st] != NUL
        invariant start <= st <= start + |s|
        decreases |chars| - st
      {
        assert chars[st] == s[st - start];
        st := st + 1;
      }
      assert st == start + |s| by {
        assert forall i :: 0 <= i < |s| ==> s[i] == chars[start + i];
      }
      st := st + 1;
      EncodeAppend(before, s);
      assert chars[..st] == chars[..start] + s + [NUL];
    }
    assert chars[..st] == chars;
  }

  lemma SamePrefix(x: string, s: string, y: string, t: string)
    requires NUL !in x && NUL !in y && x + [NUL] + s == y + [NUL] + t
    ensures x == y && s == t
  {
    var l, r := x + [NUL] + s, y + [NUL] + t;
    assert l[|x|] == NUL && r[|y|] == NUL;
    assert forall i :: 0 <= i < |x| ==> l[i] == x[i];
    assert forall i :: 0 <= i < |y| ==> r[i] == y[i];
    assert |x| == |y|;
    assert x == l[..|x|] && y == r[..|y|];
    assert s == l[|x| + 1..] && t == r[|y| + 1..];
  }

  /** A buffer is the encoding of at most one list of NUL-free strings, so the walk inverts the encoding. */
  lemma {:induction false} EncodeInjective(a: seq<string>, b: seq<string>)
    requires NulFree(a) && NulFree(b) && Encode(a) == Encode(b)
    ensures a == b
  {
    if a != [] && b != [] {
      var x, y, s, t := a[0], b[0], Encode(a[1..]), Encode(b[1..]);
      SamePrefix(x, s, y, t);
      EncodeInjective(a[1..], b[1..]);
    }
  }

  lemma {:induction false} EncodeIsTerminated(strings: seq<string>)
    ensures Terminated(Encode(strings))
    ensures |Encode(strings)| <= 1 <==> strings == [] || strings == [""]
  {
    if strings != [] {
      EncodeIsTerminated(strings[1..]);
      if strings[1..] == [] {
        assert strings == [strings[0]];
      }
    }
  }

  /**
    GetAttrStrings on an attribute that holds the strings ss: it returns them, except that
    an attribute of at most one byte takes the other branch, which wraps that byte (or a
    zero byte) into one string of length 1. Only the empty list and the list of one
    empty string are that short.
   */
  method GetAttrStrings(ghost ss: seq<string>, attribute: string) returns (strings: seq<string>)
    requires NulFree(ss) && attribute == Encode(ss)
    ensures strings == if ss == [] || ss == [""] then ["\0"] else ss
  {
    EncodeIsTerminated(ss);
    var c := NUL;
    var status := ReadOpAttr(attribute, 1);
    if status.TooSmall? {
      var chars := ReadOpAttr(attribute, status.need).bytes;
      strings := Walk(chars);
      EncodeInjective(strings, ss);
    } else {
      if status.bytes != "" {
        c := status.bytes[0];
      }
      strings := [[c]];
    }
  }

  // ---------------------------------------------------------------- cutting by lengths

  function Concat(names: seq<string>): string {
    if names == [] then "" else names[0] + Concat(names[1..])
  }

  function Sum(lengths: seq<nat>): nat {
    if lengths == [] then 0 else lengths[0] + Sum(lengths[1..])
  }

  /** The names have these lengths and make up the start of the buffer. */
  ghost predicate Cuts(names: seq<string>, buffer: string, lengths: seq<nat>) {
    && |names| == |lengths|
    && (forall i :: 0 <= i < |names| ==> |names[i]| == lengths[i])
    && Concat(names) <= buffer
  }

  /** The two buffers that the C API allocates. */
  datatype Buffer = NameBuffer | LengthBuffer

  lemma {:induction false} SumSplit(lengths: seq<nat>, i: nat)
    requires i < |lengths|
    ensures Sum(lengths[..i + 1]) == Sum(lengths[..i]) + lengths[i] <= Sum(lengths)
    decreases |lengths|
  {
    if i == 0 {
      assert lengths[..1][1..] == [] && lengths[..0] == [];
    } else {
      SumSplit(lengths[1..], i - 1);
      assert lengths[..i + 1][1..] == lengths[1..][..i];
      assert lengths[..i][1..] == lengths[1..][..i - 1];
    }
  }

  lemma {:induction false} ConcatAppend(names: seq<string>, s: string)
    ensures Concat(names + [s]) == Concat(names) + s
  {
    if names == [] {
      assert names + [s] == [s];
    } else {
      assert (names + [s])[1..] == names[1..] + [s];
      ConcatAppend(names[1..], s);
    }
  }

  /** GetOutputNamesHelper; the C API has filled at least as many bytes as the lengths add up to. The guards keep
      the pointers the walk started from and free the buffers at the end, last guard first; for a count of 0 the
      helper returns before there are guards. */
  method GetOutputNamesHelper(buffer: string, lengths: seq<nat>) returns (result: seq<string>, freed: seq<Buffer>)
    requires Sum(lengths) <= |buffer|
    ensures Cuts(result, buffer, lengths)
    ensures freed == if lengths == [] then [] else [LengthBuffer, NameBuffer]
  {
    freed := [];
    result := [];
    if |lengths| == 0 {
      return;
    }
    var at := 0;
    for i := 0 to |lengths|
      invariant at == Sum(lengths[..i])
      invariant at <= |buffer| && |result| == i
      invariant forall k :: 0 <= k < i ==> |result[k]| == lengths[k]
      invariant Concat(result) == buffer[..at]
    {
      var sz := lengths[i];
      SumSplit(lengths, i);
      ConcatAppend(result, buffer[at..at + sz]);
      assert buffer[..at + sz] == buffer[..at] + buffer[at..at + sz];
      result := result + [buffer[at..at + sz]];
      at := at + sz;
    }
    assert lengths[..|lengths|] == lengths;
    freed := [LengthBuffer, NameBuffer];
  }

  /** A buffer is cut by given lengths in one way only. */
  lemma {:induction false} CutsUnique(a: seq<string>, b: seq<string>, buffer: string, lengths: seq<nat>)
    requires Cuts(a, buffer, lengths) && Cuts(b, buffer, lengths)
    ensures a == b
  {
    if a != [] {
      var x := |a[0]|;
      assert a[0] == Concat(a)[..x] == buffer[..x];
      assert b[0] == Concat(b)[..x] == buffer[..x];
      assert Concat(a[1..]) == Concat(a)[x..];
      assert Concat(b[1..]) == Concat(b)[x..];
      CutsUnique(a[1..], b[1..], buffer[x..], lengths[1..]);
    }
  }

  /** Cutting a concatenation by its lengths gives the names back. */
  lemma CutInvertsConcat(names: seq<string>, lengths: seq<nat>, result: seq<string>)
    requires |lengths| == |names| && forall i :: 0 <= i < |names| ==> lengths[i] == |names[i]|
    requires Cuts(result, Concat(names), lengths)
    ensures result == names
  {
    CutsUnique(result, names, Concat(names), lengths);
  }
}
