/** `parts.join(sep)` and `text.split(sep)` for a one-unit separator. */
module Texts {
  import opened CodeUnits

  function JoinWith(parts: seq<Str>, sep: Unit): Str {
    if parts == [] then [] else if |parts| == 1 then parts[0] else parts[0] + [sep] + JoinWith(parts[1..], sep)
  }

  function SplitOn(text: Str, sep: Unit): (parts: seq<Str>)
    ensures parts != []
  {
    if text == [] then [[]]
    else
      var rest := SplitOn(text[1..], sep);
      if text[0] == sep then [[]] + rest else [[text[0]] + rest[0]] + rest[1..]
  }

  lemma {:induction false} SplitPlain(part: Str, tail: Str, sep: Unit)
    requires sep !in part
    ensures SplitOn(part + tail, sep) == [part + SplitOn(tail, sep)[0]] + SplitOn(tail, sep)[1..]
  {
    if part == [] {
      var rest := SplitOn(tail, sep);
      assert part + tail == tail && part + rest[0] == rest[0] && rest == [rest[0]] + rest[1..];
    } else {
      SplitPlain(part[1..], tail, sep);
      var text, rest := part + tail, SplitOn(tail, sep);
      assert text[1..] == part[1..] + tail && text[0] == part[0] != sep;
      assert [text[0]] + (part[1..] + rest[0]) == part + rest[0];
      assert ([part[1..] + rest[0]] + rest[1..])[1..] == rest[1..];
    }
  }

  /** Splitting undoes joining when no part holds the separator. */
  lemma {:induction false} SplitUndoesJoin(parts: seq<Str>, sep: Unit)
    requires parts != [] && forall i :: 0 <= i < |parts| ==> sep !in parts[i]
    ensures SplitOn(JoinWith(parts, sep), sep) == parts
  {
    if |parts| == 1 {
      SplitPlain(parts[0], [], sep);
      assert parts[0] + [] == parts[0];
    } else {
      SplitUndoesJoin(parts[1..], sep);
      var tail := [sep] + JoinWith(parts[1..], sep);
      assert tail[1..] == JoinWith(parts[1..], sep);
      SplitPlain(parts[0], tail, sep);
      assert parts[0] + [sep] + JoinWith(parts[1..], sep) == parts[0] + tail;
      var rest := SplitOn(tail, sep);
      assert rest == [[]] + parts[1..];
      assert rest[1..] == parts[1..] && parts[0] + rest[0] == parts[0];
      assert parts == [parts[0]] + parts[1..];
    }
  }
}
