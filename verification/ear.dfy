/**
 * The intercepted process-creation calls of the preload library (namespace `ear`): each call
 * either passes through to the real function unchanged, or has its argument vector rebuilt as
 * [session slots][variant header][separator][original argv][NULL] in one stack buffer.
 */
module Ear {
  import opened Wrappers
  import opened Slots
  import opened Protocol

  /** An opaque pointer handed on untouched: envp, pid_t *, file actions, attributes, a function. */
  datatype Ptr = Ptr(address: nat)

  /** One intercepted call; each variant keeps the caller's arguments as it received them. */
  datatype Execution =
    | Execve(path: string, argv: seq<string>, envp: Ptr)
    | Execvpe(file: string, argv: seq<string>, envp: Ptr)
    | ExecvP(file: string, searchPath: string, argv: seq<string>, envp: Ptr)
    | Spawn(pid: Ptr, path: string, fileActions: Ptr, attrp: Ptr, argv: seq<string>, envp: Ptr)
    | Spawnp(pid: Ptr, file: string, fileActions: Ptr, attrp: Ptr, argv: seq<string>, envp: Ptr)

  /** The real functions the resolver can look up. */
  datatype Symbol = ExecveSymbol | ExecvpeSymbol | ExecvPSymbol | PosixSpawnSymbol | PosixSpawnpSymbol

  /** The outcome of looking up each real function: its address, or why it is missing. */
  datatype Resolver = Resolver(
    execve: Result<Ptr>,
    execvpe: Result<Ptr>,
    execvP: Result<Ptr>,
    posixSpawn: Result<Ptr>,
    posixSpawnp: Result<Ptr>)
  {
    function Lookup(symbol: Symbol): Result<Ptr>
    {
      match symbol
      case ExecveSymbol => execve
      case ExecvpeSymbol => execvpe
      case ExecvPSymbol => execvP
      case PosixSpawnSymbol => posixSpawn
      case PosixSpawnpSymbol => posixSpawnp
    }
  }

  /**
   * What a real function receives, recorded by a stand-in for it, one shape per signature:
   * execve and execvpe share (path, argv, envp); execvP takes (file, search path, argv);
   * posix_spawn and posix_spawnp share (pid, path, file actions, attributes, argv, envp).
   */
  datatype Invocation =
    | ExecCall(target: Ptr, path: Slot, argv: seq<Slot>, envp: Ptr)
    | ExecvPCall(target: Ptr, file: Slot, searchPath: Slot, argv: seq<Slot>)
    | SpawnCall(target: Ptr, pid: Ptr, path: Slot, fileActions: Ptr, attrp: Ptr, argv: seq<Slot>, envp: Ptr)

  // ---------------------------------------------------------------------------------------
  // Pass-through

  /** The function each variant's plain apply resolves: its own. */
  function DirectSymbol(e: Execution): Symbol
  {
    match e
    case Execve(_, _, _) => ExecveSymbol
    case Execvpe(_, _, _) => ExecvpeSymbol
    case ExecvP(_, _, _, _) => ExecvPSymbol
    case Spawn(_, _, _, _, _, _) => PosixSpawnSymbol
    case Spawnp(_, _, _, _, _, _) => PosixSpawnpSymbol
  }

  /** apply(linker): call the real function with the caller's own arguments. */
  function ApplyDirect(linker: Resolver, e: Execution): (r: Result<Invocation>)
    ensures linker.Lookup(DirectSymbol(e)).Err? ==> r == Err(linker.Lookup(DirectSymbol(e)).error)
    ensures linker.Lookup(DirectSymbol(e)).Ok? ==> r.Ok? && r.value.target == linker.Lookup(DirectSymbol(e)).value
    ensures r.Ok? ==> r.value.argv == Terminated(e.argv) && ArgvView(r.value.argv) == Some(Strs(e.argv))
    ensures r.Ok? ==> (r.value.ExecvPCall? <==> e.ExecvP?) && (r.value.SpawnCall? <==> e.Spawn? || e.Spawnp?)
    ensures r.Ok? && !e.ExecvP? ==> r.value.envp == e.envp
    ensures r.Ok? && r.value.ExecvPCall? ==> r.value.file == Str(e.file) && r.value.searchPath == Str(e.searchPath)
    ensures r.Ok? && (e.Execve? || e.Spawn?) ==> r.value.path == Str(e.path)
    ensures r.Ok? && (e.Execvpe? || e.Spawnp?) ==> r.value.path == Str(e.file)
    ensures r.Ok? && r.value.SpawnCall? ==>
      r.value.pid == e.pid && r.value.fileActions == e.fileActions && r.value.attrp == e.attrp
  {
    ArgvViewOfTerminated(Strs(e.argv), []);
    assert Terminated(e.argv) == Strs(e.argv) + [Null] + [];
    match e
    case Execve(path, argv, envp) =>
      linker.execve.Map(fp => ExecCall(fp, Str(path), Terminated(argv), envp))
    case Execvpe(file, argv, envp) =>
      linker.execvpe.Map(fp => ExecCall(fp, Str(file), Terminated(argv), envp))
    case ExecvP(file, searchPath, argv, _) =>
      linker.execvP.Map(fp => ExecvPCall(fp, Str(file), Str(searchPath), Terminated(argv)))
    case Spawn(pid, path, fileActions, attrp, argv, envp) =>
      linker.posixSpawn.Map(fp => SpawnCall(fp, pid, Str(path), fileActions, attrp, Terminated(argv), envp))
    case Spawnp(pid, file, fileActions, attrp, argv, envp) =>
      linker.posixSpawnp.Map(fp => SpawnCall(fp, pid, Str(file), fileActions, attrp, Terminated(argv), envp))
  }

  // ---------------------------------------------------------------------------------------
  // The Serializable protocol and the per-variant encoders

  /** The slots a variant writes in front of the original argv; the separator comes last. */
  function Header(e: Execution): (h: seq<Slot>)
    ensures |h| > 0 && h[|h| - 1] == Separator && Null !in h
  {
    match e
    case Execve(_, _, _) => [Separator]
    case Execvpe(file, _, _) => [FileFlag, Str(file), Separator]
    case ExecvP(file, searchPath, _, _) => [FileFlag, Str(file), SearchFlag, Str(searchPath), Separator]
    case Spawn(_, _, _, _, _, _) => [Separator]
    case Spawnp(_, file, _, _, _, _) => [FileFlag, Str(file), Separator]
  }

  /** The file field a variant records in its header, if any. */
  function FileOf(e: Execution): Option<string>
  {
    match e
    case Execvpe(file, _, _) => Some(file)
    case ExecvP(file, _, _, _) => Some(file)
    case Spawnp(_, file, _, _, _, _) => Some(file)
    case _ => None
  }

  /** The search-path field a variant records in its header, if any. */
  function SearchPathOf(e: Execution): Option<string>
  {
    if e.ExecvP? then Some(e.searchPath) else None
  }

  /**
   * A Serializable: the session serializer built from the tracing state, or the
   * ExecutionSerializer a variant builds from its estimator and copier.
   */
  datatype Serializer =
    | Library(words: seq<string>, bound: nat) // writes `words`, promises at most `bound` slots
    | Encoder(call: Execution)
  {
    /** estimate(): the number of slots reserved for this serializer. */
    function Estimate(): nat
    {
      match this
      case Library(_, bound) => bound
      case Encoder(call) =>
        match call
        case Execve(_, argv, _) => |argv| + 2
        case Execvpe(_, argv, _) => |argv| + 4
        case ExecvP(_, _, argv, _) => |argv| + 6
        case Spawn(_, _, _, _, argv, _) => |argv| + 2
        case Spawnp(_, _, _, _, argv, _) => |argv| + 4
    }

    /** The slots copy() writes, in order. */
    function Output(): seq<Slot>
    {
      match this
      case Library(words, _) => Strs(words)
      case Encoder(call) => Encoding(call)
    }

    /** The Serializable contract: copy() never writes more than estimate() slots. */
    predicate Valid()
    {
      |Output()| <= Estimate()
    }
  }

  /** What a variant's copier writes: its header, the original argv, and a NULL. */
  function Encoding(e: Execution): (r: seq<Slot>)
    ensures |r| == Encoder(e).Estimate()
    ensures r[|r| - 1] == Null && Null !in r[..|r| - 1]
  {
    assert Null !in Strs(e.argv);
    var r := Header(e) + Strs(e.argv) + [Null];
    assert r[..|r| - 1] == Header(e) + Strs(e.argv);
    r
  }

  /** The header and argv of every variant parse back into the call's own fields. */
  lemma {:induction false} EncodingParses(e: Execution)
    ensures ParseCommand(Header(e) + Strs(e.argv)) == Some(Command([], FileOf(e), SearchPathOf(e), e.argv))
  {
    var a := Strs(e.argv);
    var base := Command([], None, None, e.argv);
    UnstrsOfStrs(e.argv);
    ParseSeparator(a, e.argv);
    if e.Execvpe? || e.Spawnp? {
      FileHeaderParses(e.file, a, base);
    } else if e.ExecvP? {
      SearchHeaderParses(e.file, e.searchPath, a, base);
    }
  }

  lemma FileHeaderParses(file: string, a: seq<Slot>, base: Command)
    requires ParseCommand([Separator] + a) == Some(base)
    ensures ParseCommand([FileFlag, Str(file), Separator] + a) == Some(base.(file := Some(file)))
  {
    ParseField(FileFlag, file, [Separator] + a, base);
    assert [FileFlag, Str(file), Separator] + a == [FileFlag, Str(file)] + ([Separator] + a);
  }

  lemma SearchHeaderParses(file: string, searchPath: string, a: seq<Slot>, base: Command)
    requires ParseCommand([Separator] + a) == Some(base)
    ensures ParseCommand([FileFlag, Str(file), SearchFlag, Str(searchPath), Separator] + a) ==
      Some(base.(file := Some(file), searchPath := Some(searchPath)))
  {
    var withSearch := base.(searchPath := Some(searchPath));
    ParseField(SearchFlag, searchPath, [Separator] + a, base);
    ParseField(FileFlag, file, [SearchFlag, Str(searchPath)] + ([Separator] + a), withSearch);
    assert [FileFlag, Str(file), SearchFlag, Str(searchPath), Separator] + a
      == [FileFlag, Str(file)] + ([SearchFlag, Str(searchPath)] + ([Separator] + a));
  }

  /**
   * array::copy: copy `src` to `begin`, write one NULL after it, return the cursor past
   * that NULL.
   */
  method ArrayCopy(src: seq<Slot>, dst: array<Slot>, begin: nat, end: nat) returns (it: nat)
    requires begin + |src| + 1 <= end <= dst.Length
    modifies dst
    ensures it == begin + |src + [Null]|
    ensures dst[..] == old(dst[..])[..begin] + (src + [Null]) + old(dst[..])[it..]
  {
    it := begin;
    var i := 0;
    while i < |src|
      invariant 0 <= i <= |src| && it == begin + i
      invariant forall k :: begin <= k < it ==> dst[k] == src[k - begin]
      invariant forall k :: 0 <= k < dst.Length && !(begin <= k < it) ==> dst[k] == old(dst[k])
    {
      dst[it] := src[i];
      it := it + 1;
      i := i + 1;
    }
    dst[it] := Null;
    it := it + 1;
    assert dst[..] == old(dst[..])[..begin] + (src + [Null]) + old(dst[..])[it..];
  }

  /** The header writes of a copier, `*it++ = …` once per header slot. */
  method WriteHeader(e: Execution, dst: array<Slot>, begin: nat) returns (it: nat)
    requires begin + |Header(e)| <= dst.Length
    modifies dst
    ensures it == begin + |Header(e)|
    ensures forall k :: 0 <= k < dst.Length ==>
      dst[k] == if begin <= k < it then Header(e)[k - begin] else old(dst[k])
  {
    it := begin;
    match e {
      case Execve(_, _, _) =>
        dst[it] := Separator; it := it + 1;
      case Execvpe(file, _, _) =>
        dst[it] := FileFlag; it := it + 1;
        dst[it] := Str(file); it := it + 1;
        dst[it] := Separator; it := it + 1;
      case ExecvP(file, searchPath, _, _) =>
        dst[it] := FileFlag; it := it + 1;
        dst[it] := Str(file); it := it + 1;
        dst[it] := SearchFlag; it := it + 1;
        dst[it] := Str(searchPath); it := it + 1;
        dst[it] := Separator; it := it + 1;
      case Spawn(_, _, _, _, _, _) =>
        dst[it] := Separator; it := it + 1;
      case Spawnp(_, file, _, _, _, _) =>
        dst[it] := FileFlag; it := it + 1;
        dst[it] := Str(file); it := it + 1;
        dst[it] := Separator; it := it + 1;
    }
  }

  /** Slots that match `x` on [b, b + |x|) and `s0` elsewhere are `x` spliced into `s0`. */
  lemma Splice(s0: seq<Slot>, s1: seq<Slot>, b: nat, x: seq<Slot>)
    requires |s1| == |s0| && b + |x| <= |s0|
    requires forall k :: 0 <= k < |s1| ==> s1[k] == if b <= k < b + |x| then x[k - b] else s0[k]
    ensures s1 == s0[..b] + x + s0[b + |x|..]
  {
  }

  /** Two writes side by side at one cursor leave their concatenation in place. */
  lemma SpliceTwice(s0: seq<Slot>, s1: seq<Slot>, s2: seq<Slot>, b: nat, x: seq<Slot>, y: seq<Slot>)
    requires b + |x| + |y| <= |s0|
    requires s1 == s0[..b] + x + s0[b + |x|..]
    requires s2 == s1[..b + |x|] + y + s1[b + |x| + |y|..]
    ensures s2 == s0[..b] + (x + y) + s0[b + |x| + |y|..]
  {
    assert s1[..b + |x|] == s0[..b] + x;
    assert s1[b + |x| + |y|..] == s0[b + |x| + |y|..];
  }

  /** An encoding is the header followed by what array::copy writes for argv. */
  lemma EncodingSplits(e: Execution)
    ensures Encoding(e) == Header(e) + (Strs(e.argv) + [Null])
    ensures Encoder(e).Estimate() == |Header(e)| + |Strs(e.argv) + [Null]|
  {
  }

  /** Header writes checked slot by slot, then a spliced copy, leave header + copy in place. */
  lemma CopierLayout(s0: seq<Slot>, s1: seq<Slot>, s2: seq<Slot>, b: nat, x: seq<Slot>, y: seq<Slot>)
    requires |s1| == |s0| && b + |x| + |y| <= |s0|
    requires forall k :: 0 <= k < |s1| ==> s1[k] == if b <= k < b + |x| then x[k - b] else s0[k]
    requires s2 == s1[..b + |x|] + y + s1[b + |x| + |y|..]
    ensures s2 == s0[..b] + (x + y) + s0[b + |x| + |y|..]
  {
    Splice(s0, s1, b, x);
    SpliceTwice(s0, s1, s2, b, x, y);
  }

  /** The copier of every variant: its header through the cursor, then array::copy of argv. */
  method CopyExecution(e: Execution, dst: array<Slot>, begin: nat, end: nat) returns (it: nat)
    requires begin + Encoder(e).Estimate() <= end <= dst.Length
    modifies dst
    ensures it == begin + Encoder(e).Estimate()
    ensures dst[..] == old(dst[..])[..begin] + Encoding(e) + old(dst[..])[it..]
  {
    EncodingSplits(e);
    ghost var header := Header(e);
    ghost var before := dst[..];
    it := WriteHeader(e, dst, begin);
    ghost var afterHeader := dst[..];
    forall k | 0 <= k < |afterHeader|
      ensures afterHeader[k] == if begin <= k < begin + |header| then header[k - begin] else before[k]
    {
      assert afterHeader[k] == dst[k];
    }
    it := ArrayCopy(Strs(e.argv), dst, it, end);
    CopierLayout(before, afterHeader, dst[..], begin, header, Strs(e.argv) + [Null]);
  }

  /** The session serializer's copy: its words, one per slot, and nothing else. */
  method CopySession(words: seq<string>, dst: array<Slot>, begin: nat, end: nat) returns (it: nat)
    requires begin + |words| <= end <= dst.Length
    modifies dst
    ensures it == begin + |words|
    ensures dst[..] == old(dst[..])[..begin] + Strs(words) + old(dst[..])[it..]
  {
    forall i | begin <= i < begin + |words| {
      dst[i] := Str(words[i - begin]);
    }
    it := begin + |words|;
    assert dst[..] == old(dst[..])[..begin] + Strs(words) + old(dst[..])[it..];
  }

  /** Serializable::copy: write the serializer's output at `begin`, never reaching `end`. */
  method Copy(s: Serializer, dst: array<Slot>, begin: nat, end: nat) returns (it: nat)
    requires s.Valid() && begin + s.Estimate() <= end <= dst.Length
    modifies dst
    ensures it == begin + |s.Output()| <= end
    ensures dst[..] == old(dst[..])[..begin] + s.Output() + old(dst[..])[it..]
  {
    match s
    case Library(words, _) => it := CopySession(words, dst, begin, end);
    case Encoder(call) => it := CopyExecution(call, dst, begin, end);
  }

  // ---------------------------------------------------------------------------------------
  // forward: two serializers into one buffer

  /**
   * The buffer `forward` hands on: exactly estimate(first) + estimate(second) slots, starting
   * with the first serializer's output immediately followed by the second's.
   */
  ghost predicate Merged(first: Serializer, second: Serializer, buffer: seq<Slot>)
  {
    |buffer| == first.Estimate() + second.Estimate() &&
    |first.Output()| + |second.Output()| <= |buffer| &&
    buffer[..|first.Output()| + |second.Output()|] == first.Output() + second.Output()
  }

  /**
   * forward(session, execution, function): size a buffer by both estimates, let the session
   * write first, let the execution continue at the session's cursor, then call the
   * continuation with (buffer[0], buffer). Slots past the written prefix are never set.
   */
  method Forward<T>(session: Serializer, execution: Serializer, continuation: (Slot, seq<Slot>) -> T)
    returns (r: T, ghost buffer: seq<Slot>)
    requires session.Valid() && execution.Valid()
    requires session.Estimate() + execution.Estimate() > 0
    ensures Merged(session, execution, buffer)
    ensures r == continuation(buffer[0], buffer)
  {
    var size := session.Estimate() + execution.Estimate();
    var dst := new Slot[size];
    buffer := Fill(session, execution, dst);
    r := continuation(dst[0], dst[..]);
  }

  /** The two copies of `forward`: the session from the start, the execution from its cursor. */
  method Fill(session: Serializer, execution: Serializer, dst: array<Slot>) returns (ghost buffer: seq<Slot>)
    requires session.Valid() && execution.Valid()
    requires dst.Length == session.Estimate() + execution.Estimate()
    modifies dst
    ensures buffer == dst[..] && Merged(session, execution, buffer)
  {
    ghost var first, second := session.Output(), execution.Output();
    var it: nat := 0;
    var end := dst.Length;
    ghost var initial := dst[..];
    it := Copy(session, dst, it, end);
    ghost var afterSession := dst[..];
    it := Copy(execution, dst, it, end);
    buffer := dst[..];
    BackToBack(initial, afterSession, buffer, first, second);
  }

  /** A write at the start followed by one at its end cursor leaves both, back to back. */
  lemma BackToBack(s0: seq<Slot>, s1: seq<Slot>, s2: seq<Slot>, x: seq<Slot>, y: seq<Slot>)
    requires |x| + |y| <= |s0|
    requires s1 == s0[..0] + x + s0[|x|..]
    requires s2 == s1[..|x|] + y + s1[|x| + |y|..]
    ensures |s2| == |s0| && s2[..|x| + |y|] == x + y
  {
    SpliceTwice(s0, s1, s2, 0, x, y);
    assert s2 == (x + y) + s0[|x| + |y|..];
  }

  /** The exec-family forward: resolve execve, then forward with the caller's envp. */
  method ForwardExec(linker: Resolver, session: Serializer, execution: Serializer, envp: Ptr)
    returns (r: Result<Invocation>, ghost buffer: seq<Slot>)
    requires session.Valid() && execution.Valid()
    requires session.Estimate() + execution.Estimate() > 0
    ensures linker.execve.Err? ==> r == Err(linker.execve.error)
    ensures linker.execve.Ok? ==>
      Merged(session, execution, buffer) && |buffer| > 0 &&
      r == Ok(ExecCall(linker.execve.value, buffer[0], buffer, envp))
  {
    match linker.execve
    case Err(why) =>
      r, buffer := Err(why), [];
    case Ok(fp) =>
      var call;
      call, buffer := Forward(session, execution, (cmd, args) => ExecCall(fp, cmd, args, envp));
      r := Ok(call);
  }

  // ---------------------------------------------------------------------------------------
  // Augmented apply and the dispatcher

  /** The function each variant's augmented apply resolves: execve or posix_spawn. */
  function AugmentedSymbol(e: Execution): Symbol
  {
    if e.Spawn? || e.Spawnp? then PosixSpawnSymbol else ExecveSymbol
  }

  /** The real call made with the merged buffer: its first slot as path, the buffer as argv. */
  function AugmentedCall(e: Execution, fp: Ptr, buffer: seq<Slot>): Invocation
    requires |buffer| > 0
  {
    match e
    case Spawn(pid, _, fileActions, attrp, _, envp) =>
      SpawnCall(fp, pid, buffer[0], fileActions, attrp, buffer, envp)
    case Spawnp(pid, _, fileActions, attrp, _, envp) =>
      SpawnCall(fp, pid, buffer[0], fileActions, attrp, buffer, envp)
    case _ =>
      ExecCall(fp, buffer[0], buffer, e.envp)
  }

  /** The outcome of apply(linker, session) for call `e`. */
  ghost predicate Augmented(linker: Resolver, e: Execution, session: Serializer,
                            r: Result<Invocation>, buffer: seq<Slot>)
  {
    match linker.Lookup(AugmentedSymbol(e))
    case Err(why) => r == Err(why)
    case Ok(fp) =>
      Merged(session, Encoder(e), buffer) && |buffer| > 0 && r == Ok(AugmentedCall(e, fp, buffer))
  }

  /** apply(linker, session): resolve the real function, then forward through the encoders. */
  method ApplyAugmented(linker: Resolver, e: Execution, session: Serializer)
    returns (r: Result<Invocation>, ghost buffer: seq<Slot>)
    requires session.Valid()
    ensures Augmented(linker, e, session, r, buffer)
    ensures r.Err? <==> linker.Lookup(AugmentedSymbol(e)).Err?
    ensures r.Ok? ==>
      !r.value.ExecvPCall? && r.value.envp == e.envp &&
      |r.value.argv| == session.Estimate() + Encoder(e).Estimate()
  {
    var execution := Encoder(e);
    match e {
      case Execve(_, _, envp) =>
        r, buffer := ForwardExec(linker, session, execution, envp);
      case Execvpe(_, _, envp) =>
        r, buffer := ForwardExec(linker, session, execution, envp);
      case ExecvP(_, _, _, envp) =>
        r, buffer := ForwardExec(linker, session, execution, envp);
      case Spawn(pid, _, fileActions, attrp, _, envp) =>
        match linker.posixSpawn {
          case Err(why) =>
            r, buffer := Err(why), [];
          case Ok(fp) =>
            var call;
            call, buffer := Forward(session, execution,
              (cmd, args) => SpawnCall(fp, pid, cmd, fileActions, attrp, args, envp));
            r := Ok(call);
        }
      case Spawnp(pid, _, fileActions, attrp, _, envp) =>
        match linker.posixSpawn {
          case Err(why) =>
            r, buffer := Err(why), [];
          case Ok(fp) =>
            var call;
            call, buffer := Forward(session, execution,
              (cmd, args) => SpawnCall(fp, pid, cmd, fileActions, attrp, args, envp));
            r := Ok(call);
        }
    }
  }

  /** The tracing state, as the words its session serializer writes and the slots it reserves. */
  datatype State = State(words: seq<string>, bound: nat)

  function LibrarySession(state: State): Serializer
  {
    Library(state.words, state.bound)
  }

  /** Execution::apply(linker, state): no state means pass-through, a state means augmented. */
  method Apply(linker: Resolver, e: Execution, state: Option<State>)
    returns (r: Result<Invocation>, ghost buffer: seq<Slot>)
    requires state.Some? ==> LibrarySession(state.value).Valid()
    ensures state.None? ==> r == ApplyDirect(linker, e)
    ensures state.Some? ==> Augmented(linker, e, LibrarySession(state.value), r, buffer)
  {
    if state.None? {
      r, buffer := ApplyDirect(linker, e), [];
    } else {
      r, buffer := ApplyAugmented(linker, e, LibrarySession(state.value));
    }
  }

  // ---------------------------------------------------------------------------------------
  // What the real function and the downstream consumer see

  /**
   * A merged buffer of a session's words and a variant's encoding starts with the first word
   * (or the header when there is none) and decodes back to the words, the variant's file and
   * search path, and its original argv, whatever the unwritten slots after the NULL hold.
   */
  lemma {:induction false} MergedDecodes(words: seq<string>, bound: nat, e: Execution, buffer: seq<Slot>)
    requires Merged(Library(words, bound), Encoder(e), buffer)
    ensures |buffer| > 0 && buffer[0] == (if words != [] then Str(words[0]) else Header(e)[0])
    ensures Decode(buffer) == Some(Command(words, FileOf(e), SearchPathOf(e), e.argv))
  {
    EncodingSplits(e);
    var body := Header(e) + Strs(e.argv);
    var entries := Strs(words) + body;
    var n := |entries| + 1;
    assert Strs(words) + Encoding(e) == entries + [Null];
    assert buffer[..n] == entries + [Null];
    assert buffer == entries + [Null] + buffer[n..];
    assert Null !in Strs(words) && Null !in Strs(e.argv);
    ArgvViewOfTerminated(entries, buffer[n..]);
    EncodingParses(e);
    ParseAfterSession(words, body, Command([], FileOf(e), SearchPathOf(e), e.argv));
    assert words + [] == words;
    assert buffer[0] == entries[0];
  }

  /**
   * An augmented call that went through runs the session's first word (the helper) as its
   * program, keeps envp and the spawn arguments, and its argv decodes back to the session,
   * the variant's file and search path, and the original argument vector.
   */
  lemma {:induction false} AugmentedDecodes(linker: Resolver, e: Execution, state: State,
                                            r: Result<Invocation>, buffer: seq<Slot>)
    requires Augmented(linker, e, LibrarySession(state), r, buffer)
    requires r.Ok?
    ensures !r.value.ExecvPCall? && r.value.argv == buffer
    ensures r.value.path == (if state.words != [] then Str(state.words[0]) else Header(e)[0])
    ensures r.value.envp == e.envp
    ensures r.value.SpawnCall? <==> e.Spawn? || e.Spawnp?
    ensures r.value.SpawnCall? ==>
      r.value.pid == e.pid && r.value.fileActions == e.fileActions && r.value.attrp == e.attrp
    ensures Decode(r.value.argv) == Some(Command(state.words, FileOf(e), SearchPathOf(e), e.argv))
  {
    MergedDecodes(state.words, state.bound, e, buffer);
  }

  /** `execve("/usr/bin/cc", ["cc", "-c", "a.c"], envp)` without a session reaches the real execve as it was made. */
  method PassThroughExample() returns (r: Result<Invocation>)
    ensures r == Ok(ExecCall(Ptr(1), Str("/usr/bin/cc"), [Str("cc"), Str("-c"), Str("a.c"), Null], Ptr(7)))
  {
    var linker := Resolver(Ok(Ptr(1)), Ok(Ptr(2)), Ok(Ptr(3)), Ok(Ptr(4)), Ok(Ptr(5)));
    var call := Execve("/usr/bin/cc", ["cc", "-c", "a.c"], Ptr(7));
    ghost var buffer;
    r, buffer := Apply(linker, call, None);
    assert Strs(call.argv) == [Str("cc"), Str("-c"), Str("a.c")];
    assert r.value.argv == Terminated(call.argv) == [Str("cc"), Str("-c"), Str("a.c"), Null];
  }

  /**
   * The same call under a session that writes "/path/to/helper" runs the helper with
   * ["/path/to/helper", separator, "cc", "-c", "a.c", NULL].
   */
  method HelperExample() returns (r: Result<Invocation>)
    ensures r == Ok(ExecCall(Ptr(1), Str("/path/to/helper"),
                             [Str("/path/to/helper"), Separator, Str("cc"), Str("-c"), Str("a.c"), Null], Ptr(7)))
  {
    var linker := Resolver(Ok(Ptr(1)), Ok(Ptr(2)), Ok(Ptr(3)), Ok(Ptr(4)), Ok(Ptr(5)));
    var call := Execve("/usr/bin/cc", ["cc", "-c", "a.c"], Ptr(7));
    ghost var buffer;
    r, buffer := Apply(linker, call, Some(State(["/path/to/helper"], 1)));
    assert Strs(["/path/to/helper"]) + Encoding(call) ==
      [Str("/path/to/helper"), Separator, Str("cc"), Str("-c"), Str("a.c"), Null];
    assert |buffer| == 6 && buffer == buffer[..6];
  }
}
