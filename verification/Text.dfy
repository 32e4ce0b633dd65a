/** Joining texts with a separator and splitting them again: `join(":")` of the mount option, and the way
    the kernel's tools read lists, addresses and endpoints. */
module Text {
  function Join(parts: seq<string>, sep: char): string {
    if parts == [] then ""
    else if |parts| == 1 then parts[0]
    else Join(parts[..|parts| - 1], sep) + [sep] + parts[|parts| - 1]
  }

  function Split(s: string, sep: char): (parts: seq<string>)
    ensures parts != []
    ensures forall i :: 0 <= i < |parts| ==> sep !in parts[i]
  {
    if s == "" then [""]
    else
      var init := Split(s[..|s| - 1], sep);
      var c := s[|s| - 1];
      if c == sep then init + [""] else init[|init| - 1 := init[|init| - 1] + [c]]
  }

  lemma {:induction false} SplitAfterSeparator(s: string, tail: string, sep: char)
    requires sep !in tail
    ensures Split(s + [sep] + tail, sep) == Split(s, sep) + [tail]
  {
    var t := s + [sep] + tail;
    if tail == "" {
      assert t[..|t| - 1] == s;
    } else {
      var m := |tail| - 1;
      assert t[..|t| - 1] == s + [sep] + tail[..m];
      SplitAfterSeparator(s, tail[..m], sep);
      assert tail[..m] + [tail[m]] == tail;
    }
  }

  lemma {:induction false} SplitWithoutSeparator(s: string, sep: char)
    requires sep !in s
    ensures Split(s, sep) == [s]
  {
    if s != "" {
      SplitWithoutSeparator(s[..|s| - 1], sep);
      assert s[..|s| - 1] + [s[|s| - 1]] == s;
    }
  }

  lemma {:induction false} SplitOfJoin(parts: seq<string>, sep: char)
    requires parts != [] && forall i :: 0 <= i < |parts| ==> sep !in parts[i]
    ensures Split(Join(parts, sep), sep) == parts
  {
    var n := |parts| - 1;
    if n == 0 {
      SplitWithoutSeparator(parts[0], sep);
    } else {
      SplitOfJoin(parts[..n], sep);
      SplitAfterSeparator(Join(parts[..n], sep), parts[n], sep);
      assert parts[..n] + [parts[n]] == parts;
    }
  }

  /** Splitting gives a joined list back exactly when there is an entry and none contains the separator. */
  lemma SplitUndoesJoinIff(parts: seq<string>, sep: char)
    ensures Split(Join(parts, sep), sep) == parts <==> parts != [] && forall i :: 0 <= i < |parts| ==> sep !in parts[i]
  {
    if parts != [] && forall i :: 0 <= i < |parts| ==> sep !in parts[i] {
      SplitOfJoin(parts, sep);
    }
  }

  lemma JoinTwo(a: string, b: string, sep: char)
    ensures Join([a, b], sep) == a + [sep] + b
  {
    assert [a, b][..1] == [a];
  }
}
