/** Pointer slots of a NULL-terminated argument vector, and what a callee reads from one. */
module Slots {
  import opened Wrappers

  /**
   * One `char const *` slot. `Str` is a pointer to a string; `Separator`, `FileFlag` and
   * `SearchFlag` are the reserved constant tokens of the rewriting protocol (their
   * concrete spelling lives in a header outside this model); `Null` is the terminator.
   */
  datatype Slot = Null | Str(s: string) | Separator | FileFlag | SearchFlag

  /** The slots pointing at each string of `ws`, in order. */
  function Strs(ws: seq<string>): (r: seq<Slot>)
    ensures |r| == |ws|
    ensures forall i :: 0 <= i < |ws| ==> r[i] == Str(ws[i])
  {
    seq(|ws|, i requires 0 <= i < |ws| => Str(ws[i]))
  }

  /** A POSIX argument vector as the caller hands it over: its entries, then one NULL. */
  function Terminated(ws: seq<string>): seq<Slot>
  {
    Strs(ws) + [Null]
  }

  /**
   * The entries a callee such as execve reads from `v`: everything before the first NULL.
   * `None` when `v` holds no NULL, i.e. the callee would read past the buffer.
   */
  function ArgvView(v: seq<Slot>): (r: Option<seq<Slot>>)
    ensures r.Some? ==> Null !in r.value
    ensures r.Some? ==> |r.value| < |v| && v[..|r.value|] == r.value && v[|r.value|] == Null
    ensures r.None? ==> Null !in v
  {
    if v == [] then None
    else if v[0] == Null then Some([])
    else match ArgvView(v[1..])
      case None => None
      case Some(rest) => Some([v[0]] + rest)
  }

  /** A buffer whose first NULL follows `p` shows exactly `p` to the callee, whatever follows. */
  lemma {:induction false} ArgvViewOfTerminated(p: seq<Slot>, tail: seq<Slot>)
    requires Null !in p
    ensures ArgvView(p + [Null] + tail) == Some(p)
  {
    var v := p + [Null] + tail;
    if p == [] {
      assert v[0] == Null;
    } else {
      assert v[0] == p[0] != Null;
      assert v[1..] == p[1..] + [Null] + tail;
      ArgvViewOfTerminated(p[1..], tail);
      assert [p[0]] + p[1..] == p;
    }
  }
}
