/**
 * The reading side of the rewritten argument vector: scan from the start, take everything
 * before the separator as metadata (session words, then the optional file and search-path
 * fields introduced by their flags), and everything after it as the original command line.
 * This is the reference definition the encoder in module Ear is proved against.
 */
module Protocol {
  import opened Wrappers
  import opened Slots

  datatype Command = Command(
    session: seq<string>,       // the injected prefix
    file: Option<string>,       // present after FileFlag (execvpe, execvP, posix_spawnp)
    searchPath: Option<string>, // present after SearchFlag (execvP)
    argv: seq<string>)          // the original command line

  /** The strings behind `v`, provided every slot of it is a string. */
  function Unstrs(v: seq<Slot>): (r: Option<seq<string>>)
    ensures r.Some? ==> Strs(r.value) == v
  {
    if v == [] then Some([])
    else if !v[0].Str? then None
    else match Unstrs(v[1..])
      case None => None
      case Some(rest) => Some([v[0].s] + rest)
  }

  lemma {:induction false} UnstrsOfStrs(ws: seq<string>)
    ensures Unstrs(Strs(ws)) == Some(ws)
  {
    if ws != [] {
      assert Strs(ws)[1..] == Strs(ws[1..]);
      UnstrsOfStrs(ws[1..]);
      assert [ws[0]] + ws[1..] == ws;
    }
  }

  /** Parses the entries of a rewritten argument vector (its NULL terminator excluded). */
  function ParseCommand(v: seq<Slot>): Option<Command>
    decreases |v|
  {
    if v == [] then None
    else match v[0]
      case Separator =>
        (match Unstrs(v[1..])
         case None => None
         case Some(args) => Some(Command([], None, None, args)))
      case Str(w) =>
        (match ParseCommand(v[1..])
         case None => None
         case Some(c) => Some(c.(session := [w] + c.session)))
      case FileFlag =>
        if |v| < 2 || !v[1].Str? then None
        else (match ParseCommand(v[2..])
              case None => None
              case Some(c) => Some(c.(file := Some(v[1].s))))
      case SearchFlag =>
        if |v| < 2 || !v[1].Str? then None
        else (match ParseCommand(v[2..])
              case None => None
              case Some(c) => Some(c.(searchPath := Some(v[1].s))))
      case Null => None
  }

  /** The separator ends the metadata; the string slots after it are the command line. */
  lemma ParseSeparator(rest: seq<Slot>, args: seq<string>)
    requires Unstrs(rest) == Some(args)
    ensures ParseCommand([Separator] + rest) == Some(Command([], None, None, args))
  {
    assert ([Separator] + rest)[1..] == rest;
  }

  /** A flag and the string after it set that field of whatever the rest parses to. */
  lemma ParseField(flag: Slot, value: string, rest: seq<Slot>, c: Command)
    requires flag == FileFlag || flag == SearchFlag
    requires ParseCommand(rest) == Some(c)
    ensures ParseCommand([flag, Str(value)] + rest) ==
      Some(if flag == FileFlag then c.(file := Some(value)) else c.(searchPath := Some(value)))
  {
    assert ([flag, Str(value)] + rest)[2..] == rest;
  }

  /** What the consumer recovers from a whole buffer handed over as `argv`. */
  function Decode(buffer: seq<Slot>): Option<Command>
  {
    match ArgvView(buffer)
    case None => None
    case Some(entries) => ParseCommand(entries)
  }

  /** Session words in front of a parsed vector come back as the session, in order. */
  lemma {:induction false} ParseAfterSession(words: seq<string>, rest: seq<Slot>, c: Command)
    requires ParseCommand(rest) == Some(c)
    ensures ParseCommand(Strs(words) + rest) == Some(c.(session := words + c.session))
  {
    if words != [] {
      var v := Strs(words) + rest;
      assert v[0] == Str(words[0]);
      assert v[1..] == Strs(words[1..]) + rest;
      ParseAfterSession(words[1..], rest, c);
      assert [words[0]] + (words[1..] + c.session) == words + c.session;
    } else {
      assert Strs(words) + rest == rest;
      assert words + c.session == c.session;
    }
  }
}
