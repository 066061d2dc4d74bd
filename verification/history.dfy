/**
 The history store of the shell: the intrusive `list_head` list of submitted
 lines, modelled as a sequence in submission order, with its three users —
 `append_history`, the `history` built-in's listing and `finalize`.
 */
module History {
  import opened Format

  /** Entry `i` is the `i`-th submitted line, exactly as read. */
  type History = seq<string>

  /** `append_history`: the line goes to the tail; every earlier entry keeps its index. */
  function Append(h: History, line: string): (h': History)
    ensures |h'| == |h| + 1
    ensures h'[|h|] == line
    ensures forall i :: 0 <= i < |h| ==> h'[i] == h[i]
  {
    h + [line]
  }

  /** Appending each of `lines` in turn, as the main loop does once per line read. */
  function AppendAll(h: History, lines: seq<string>): History
    decreases |lines|
  {
    if |lines| == 0 then h else AppendAll(Append(h, lines[0]), lines[1..])
  }

  /** Appending lines one by one leaves the old entries in place and the new ones in submission order. */
  lemma {:induction false} AppendAllInOrder(h: History, lines: seq<string>)
    ensures AppendAll(h, lines) == h + lines
    decreases |lines|
  {
    if |lines| > 0 {
      AppendAllInOrder(Append(h, lines[0]), lines[1..]);
      assert Append(h, lines[0]) + lines[1..] == h + lines;
    }
  }

  /** A store that starts empty answers index `i` with the `i`-th submitted line. */
  lemma SubmittedLinesRecalledByIndex(lines: seq<string>)
    ensures |AppendAll([], lines)| == |lines|
    ensures forall i :: 0 <= i < |lines| ==> AppendAll([], lines)[i] == lines[i]
  {
    AppendAllInOrder([], lines);
  }

  predicate EndsWithNewline(s: string) {
    0 < |s| && s[|s| - 1] == '\n'
  }

  /** The `"%2d: "` column in front of entry `i`. */
  function IndexPrefix(i: nat): (p: string)
    ensures 4 <= |p|
    ensures |p| == 4 <==> i < 100
    ensures 100 <= i ==> |p| == |Digits(i)| + 2
    ensures p[|p| - 2..] == ": "
    ensures '\n' !in p
  {
    var column := PadLeft(Digits(i), 2);
    DigitsWidth(i);
    PaddedDigitsNoNewline(i, 2);
    column + ": "
  }

  /** Reading the index column back: after its leading blanks come exactly the digits of `i`, then `": "`. */
  lemma IndexPrefixReadBack(i: nat)
    ensures var p := IndexPrefix(i);
            && TrimBlanks(p[..|p| - 2]) == Digits(i)
            && DigitsValue(TrimBlanks(p[..|p| - 2])) == i
  {
    var p := IndexPrefix(i);
    assert p[..|p| - 2] == PadLeft(Digits(i), 2);
    PadLeftReadBack(i, 2);
  }

  /** One line of the `history` listing: prefix, the stored text, and a newline only if the text lacks one. */
  function FormatEntry(i: nat, entry: string): (line: string)
    ensures |line| == |IndexPrefix(i)| + |entry| + (if EndsWithNewline(entry) then 0 else 1)
    ensures EndsWithNewline(line)
  {
    IndexPrefix(i) + entry + (if EndsWithNewline(entry) then "" else "\n")
  }

  /** A listed line starts with the index column, and the stored text follows it unchanged. */
  lemma FormatEntryLayout(i: nat, entry: string)
    ensures var line, n := FormatEntry(i, entry), |IndexPrefix(i)|;
            && line[..n] == IndexPrefix(i)
            && line[n..n + |entry|] == entry
  {
  }

  /** At most a trailing newline: what `fgets` stores for one input line. */
  predicate SingleLine(s: string) {
    forall k :: 0 <= k < |s| - 1 ==> s[k] != '\n'
  }

  /** A listed entry that held one input line is printed with exactly one line terminator. */
  lemma OneTerminatorPerEntry(i: nat, entry: string)
    requires SingleLine(entry)
    ensures multiset(FormatEntry(i, entry))['\n'] == 1
  {
    var body := if EndsWithNewline(entry) then entry[..|entry| - 1] else entry;
    assert forall k :: 0 <= k < |body| ==> body[k] != '\n';
    if EndsWithNewline(entry) {
      assert entry == body + "\n";
    }
    assert FormatEntry(i, entry) == IndexPrefix(i) + body + "\n";
    NewlineTerminatedCount(IndexPrefix(i), body);
  }

  /** Text without newlines, then one newline: exactly one newline in all. */
  lemma NewlineTerminatedCount(prefix: string, body: string)
    requires '\n' !in prefix
    requires forall k :: 0 <= k < |body| ==> body[k] != '\n'
    ensures multiset(prefix + body + "\n")['\n'] == 1
  {
  }

  /** The `history` built-in: one formatted line per entry, in list order, indexed from 0. */
  function Listing(h: History): (lines: seq<string>)
    ensures |lines| == |h|
    ensures forall i :: 0 <= i < |h| ==> lines[i] == FormatEntry(i, h[i])
  {
    seq(|h|, i requires 0 <= i < |h| => FormatEntry(i, h[i]))
  }

  /** Distinct positions carry distinct index labels in the listing. */
  lemma ListingLabelsDistinct(h: History, i: nat, j: nat)
    requires i < |h| && j < |h| && i != j
    ensures Listing(h)[i][..|IndexPrefix(i)|] != Listing(h)[j][..|IndexPrefix(j)|]
  {
    FormatEntryLayout(i, h[i]);
    FormatEntryLayout(j, h[j]);
    IndexPrefixReadBack(i);
    IndexPrefixReadBack(j);
  }

  /**
   `finalize`: entries are unlinked and freed from the head until the list is
   empty. Returns the entries in the order they were released and what is left.
   */
  method Finalize(h: History) returns (released: seq<string>, rest: History)
    ensures rest == []
    ensures released == h
  {
    released, rest := [], h;
    while 0 < |rest|
      invariant released + rest == h
      decreases |rest|
    {
      released, rest := released + [rest[0]], rest[1..];
    }
  }
}
