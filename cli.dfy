/** The one piece of the command-line front end that feeds the core:
    `processPatterns`, which turns an `--include` or `--exclude` argument into
    the pattern list the inclusion policy reads. */
module Cli {
  import opened Text

  /** `parts.filter(Boolean)` on strings: drops the empty ones, keeps the order. */
  function DropEmpty(parts: seq<string>): (r: seq<string>)
    ensures forall i :: 0 <= i < |r| ==> r[i] != "" && r[i] in parts
    ensures forall i :: 0 <= i < |parts| && parts[i] != "" ==> parts[i] in r
    ensures |r| <= |parts|
    ensures Concat(r) == Concat(parts)
  {
    if parts == [] then []
    else
      var rest := DropEmpty(parts[1..]);
      if parts[0] == "" then rest else [parts[0]] + rest
  }

  /** The filter works piece by piece: filtering a concatenation filters each
      part, so the kept pieces stay in their original order. */
  lemma {:induction false} DropEmptyAppend(a: seq<string>, b: seq<string>)
    ensures DropEmpty(a + b) == DropEmpty(a) + DropEmpty(b)
  {
    if a == [] {
      assert a + b == b;
    } else {
      assert (a + b)[0] == a[0] && (a + b)[1..] == a[1..] + b;
      DropEmptyAppend(a[1..], b);
    }
  }

  /** Keeping only non-empty strings changes nothing when none is empty. */
  lemma {:induction false} DropEmptyKeepsNonEmpty(parts: seq<string>)
    requires forall i :: 0 <= i < |parts| ==> parts[i] != ""
    ensures DropEmpty(parts) == parts
  {
    if parts != [] {
      DropEmptyKeepsNonEmpty(parts[1..]);
    }
  }

  /** `processPatterns`: an empty argument gives no patterns; otherwise the
      comma-separated pieces, in order, without the empty ones. The patterns
      hold between them every character of the argument except the commas. */
  function ProcessPatterns(patterns: string): (r: seq<string>)
    ensures patterns == "" ==> r == []
    ensures forall i :: 0 <= i < |r| ==> r[i] != "" && ',' !in r[i]
    ensures Concat(r) == Without(patterns, ',')
  {
    if patterns == "" then []
    else
      ConcatSplit(patterns, ',');
      DropEmpty(Split(patterns, ','))
  }

  /** Whatever the argument, the patterns are its comma-separated segments, in
      order, with the empty ones dropped: writing any list of comma-free
      segments with commas between them and parsing it gives back exactly the
      non-empty segments. Every argument is such a join, of its own `split`. */
  lemma ProcessPatternsSegments(segments: seq<string>)
    requires |segments| >= 1
    requires forall i :: 0 <= i < |segments| ==> ',' !in segments[i]
    ensures ProcessPatterns(Join(segments, ',')) == DropEmpty(segments)
  {
    SplitJoin(segments, ',');
  }

  /** An empty segment between two commas is dropped: `"a,,b"` gives `["a", "b"]`. */
  lemma ProcessPatternsDropsEmptySegment()
    ensures ProcessPatterns("a,,b") == ["a", "b"]
  {
    var segments := ["a", "", "b"];
    assert Join(segments[2..], ',') == "b";
    assert Join(segments[1..], ',') == "" + [','] + "b";
    assert Join(segments, ',') == "a" + [','] + ",b" == "a,,b";
    ProcessPatternsSegments(segments);
    assert DropEmpty(segments[2..]) == ["b"];
    assert DropEmpty(segments[1..]) == ["b"];
  }

  /** A list of non-empty, comma-free patterns survives being written as one
      comma-separated argument and parsed back. */
  lemma ProcessPatternsRoundTrip(list: seq<string>)
    requires forall i :: 0 <= i < |list| ==> list[i] != "" && ',' !in list[i]
    ensures ProcessPatterns(Join(list, ',')) == list
  {
    if list != [] {
      var text := Join(list, ',');
      assert text != "" by {
        if |list| == 1 {
          assert text == list[0];
        } else {
          assert text == list[0] + [','] + Join(list[1..], ',');
        }
      }
      SplitJoin(list, ',');
      DropEmptyKeepsNonEmpty(list);
    }
  }
}
