/**
 One step of the `!N` built-in: which history entry `N` selects, and the two
 guards that run before the selected text is dispatched again.
 */
module Recall {
  import opened Options
  import opened Format
  import opened History

  /**
   The entry walk of the recall code from position `cnt` on: it stops at the
   first position equal to `target`, and otherwise runs off the end of a list
   of `size` entries.
   */
  function SearchFrom(size: nat, target: int, cnt: nat): (pos: nat)
    requires cnt <= size
    ensures pos <= size
    ensures pos == (if cnt <= target < size then target else size)
    decreases size - cnt
  {
    if cnt == size then size
    else if cnt == target then cnt
    else SearchFrom(size, target, cnt + 1)
  }

  /** The position `cnt` the walk ends at: `target` when it names an entry, the list size otherwise (negative targets included). */
  function Search(size: nat, target: int): (pos: nat)
    ensures 0 <= target < size ==> pos == target
    ensures !(0 <= target < size) ==> pos == size
  {
    SearchFrom(size, target, 0)
  }

  /** The text `"! %d\n"` a recall of `n` is compared against to refuse recalling itself. */
  function RecallLine(n: int): (r: string)
    ensures 4 <= |r|
    ensures r[..2] == "! " && r[|r| - 1] == '\n'
    ensures r[2..|r| - 1] == IntToString(n)
  {
    "! " + IntToString(n) + "\n"
  }

  /** Only the recall of `n` itself has the self-recall text of `n`. */
  lemma RecallLineInjective(n: int, m: int)
    requires RecallLine(n) == RecallLine(m)
    ensures n == m
  {
  }

  datatype RecallStep =
    | MissingIndex          // `!` typed without an index
    | IndexExceeded         // the walk stopped at or past the entry of the `!` line itself
    | SelfRecall            // the selected entry is the very text `"! N\n"`
    | Replay(line: string)  // the selected entry, to be tokenized and dispatched again

  /**
   Resolves `!` against the store `h` (which already holds the `!` line at its
   tail). `arg` is the parsed index, `None` when the command had only one token.
   */
  function Resolve(h: History, arg: Option<int>): (r: RecallStep)
    ensures r.MissingIndex? <==> arg.None?
    ensures r.IndexExceeded? <==> arg.Some? && !(0 <= arg.value < |h| - 1)
    ensures r.SelfRecall? <==> arg.Some? && 0 <= arg.value < |h| - 1 && h[arg.value] == RecallLine(arg.value)
    ensures r.Replay? <==> arg.Some? && 0 <= arg.value < |h| - 1 && h[arg.value] != RecallLine(arg.value)
    ensures r.Replay? ==> r.line == h[arg.value]
  {
    match arg
    case None => MissingIndex
    case Some(n) =>
      var cnt := Search(|h|, n);
      if cnt >= |h| - 1 then IndexExceeded
      else if h[cnt] == RecallLine(n) then SelfRecall
      else Replay(h[cnt])
  }

  /** The `!` line just appended can never be its own target, nor any index past it. */
  lemma OwnEntryNeverRecalled(h: History, line: string, n: int)
    requires |h| <= n
    ensures Resolve(Append(h, line), Some(n)) == IndexExceeded
  {
  }

  /**
   The guards do not exclude a cycle through two entries: with `"! 1\n"` and
   `"! 0\n"` stored and `! 0` typed, index 0 replays `"! 1\n"` and index 1
   replays `"! 0\n"`, both judged against the store as it was forked.
   */
  lemma MutualRecallPassesGuards()
    ensures var h := ["! 1\n", "! 0\n", "! 0\n"];
            && Resolve(h, Some(0)) == Replay("! 1\n")
            && Resolve(h, Some(1)) == Replay("! 0\n")
  {
    var h := ["! 1\n", "! 0\n", "! 0\n"];
    assert RecallLine(0) == "! 0\n";
    assert RecallLine(1) == "! 1\n";
  }

  /**
   The self-recall guard is purely textual: an entry that names its own index
   in any other spelling than `"! %d\n"` (here with a leading zero) is
   replayed, so a single entry can recall itself.
   */
  lemma RespelledSelfRecallPassesGuards()
    ensures Resolve(["! 00\n", "! 0\n"], Some(0)) == Replay("! 00\n")
  {
    assert RecallLine(0) == "! 0\n";
  }
}
