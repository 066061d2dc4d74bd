/**
 Token-level helpers of `run_command`: locating the pipe separator and cutting
 the argument vector into the two pipeline stages, each handed to `execvp` as
 a NULL-terminated array.
 */
module Tokens {
  import opened Options

  /** The pipe separator token. */
  const Bar: string := "|"

  /** The scan of `find_pipe` from position `i` on: the first `"|"` at or after `i`, or -1. */
  function FindPipeFrom(tokens: seq<string>, i: nat): (r: int)
    requires i <= |tokens|
    ensures r == -1 || i <= r < |tokens|
    ensures r == -1 <==> forall j :: i <= j < |tokens| ==> tokens[j] != Bar
    ensures r != -1 ==> tokens[r] == Bar && forall j :: i <= j < r ==> tokens[j] != Bar
    decreases |tokens| - i
  {
    if i == |tokens| then -1
    else if tokens[i] == Bar then i
    else FindPipeFrom(tokens, i + 1)
  }

  /** `find_pipe`: the index of the first `"|"` token, -1 when there is none. */
  function FindPipe(tokens: seq<string>): (r: int)
    ensures -1 <= r < |tokens|
    ensures r == -1 <==> Bar !in tokens
    ensures 0 <= r ==> tokens[r] == Bar
    ensures 0 <= r ==> forall j :: 0 <= j < r ==> tokens[j] != Bar
  {
    FindPipeFrom(tokens, 0)
  }

  /** The two stages of a pipeline. */
  datatype Stages = Stages(left: seq<string>, right: seq<string>)

  /** The copies `run_command` makes around the separator at `idx`; the separator itself is dropped. */
  function SplitAt(tokens: seq<string>, idx: nat): (s: Stages)
    requires idx < |tokens|
    ensures s.left + [tokens[idx]] + s.right == tokens
    ensures |s.left| == idx
    ensures |s.left| + |s.right| == |tokens| - 1
  {
    Stages(tokens[..idx], tokens[idx + 1..])
  }

  /** A segment as the `char *argv[]` handed to `execvp`: the tokens followed by one NULL. */
  function NullTerminated(segment: seq<string>): (argv: seq<Option<string>>)
    ensures |argv| == |segment| + 1
    ensures argv[|segment|] == None
    ensures forall i :: 0 <= i < |segment| ==> argv[i] == Some(segment[i])
  {
    if |segment| == 0 then [None] else [Some(segment[0])] + NullTerminated(segment[1..])
  }

  /** The arguments `execvp` sees in an argv array: everything before the first NULL. */
  function Arguments(argv: seq<Option<string>>): (args: seq<string>)
    ensures |args| <= |argv|
  {
    if |argv| == 0 || argv[0].None? then [] else [argv[0].value] + Arguments(argv[1..])
  }

  /** A NULL-terminated segment carries exactly the segment's tokens as arguments. */
  lemma {:induction false} ArgumentsOfNullTerminated(segment: seq<string>)
    ensures Arguments(NullTerminated(segment)) == segment
    decreases |segment|
  {
    if |segment| > 0 {
      var argv := NullTerminated(segment);
      assert argv[1..] == NullTerminated(segment[1..]);
      ArgumentsOfNullTerminated(segment[1..]);
    }
  }

  /**
   Cutting at the first separator: the left stage holds no separator, the two
   stages together are every token but the separator, and each stage's argv
   array is NULL-terminated at the stage's own length.
   */
  lemma PipeSplit(tokens: seq<string>)
    requires Bar in tokens
    ensures var idx := FindPipe(tokens);
            var s := SplitAt(tokens, idx);
            && s.left == tokens[..idx]
            && s.right == tokens[idx + 1..]
            && Bar !in s.left
            && s.left + [Bar] + s.right == tokens
            && |s.left| + |s.right| == |tokens| - 1
            && Arguments(NullTerminated(s.left)) == s.left
            && Arguments(NullTerminated(s.right)) == s.right
  {
    var idx := FindPipe(tokens);
    var s := SplitAt(tokens, idx);
    assert Bar !in s.left by {
      assert forall j :: 0 <= j < |s.left| ==> s.left[j] == tokens[j];
    }
    ArgumentsOfNullTerminated(s.left);
    ArgumentsOfNullTerminated(s.right);
  }
}
