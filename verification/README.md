# Argument-vector rewriting of Bear's preload library

Bear's preload library (`libear`) intercepts a traced program's calls to `execve`,
`execvpe`, `execvP`, `posix_spawn` and `posix_spawnp`. Each intercepted call becomes an
`Execution` variant that keeps the caller's arguments. `Execution::apply(linker, state)`
then does one of two things:

- With no tracing state, it passes the call through: it resolves the real function and
  calls it with the caller's own pointers.
- With a state, it rewrites `argv`. One stack buffer of exactly
  `session.estimate() + execution.estimate()` slots receives the session's slots first.
  The variant's header (file flag, file, search flag, search path, as the variant has
  them), the command separator, the original `argv` and a NULL follow from the session's
  cursor. The real function is then called with `buffer[0]` as its path and the buffer as
  its `argv`.

The model has four modules:

- `Wrappers`: `Option`, and the `Result` type with `Map` (`Result::map`).
- `Slots`: pointer slots (`Null`, `Str`, and the reserved `Separator`, `FileFlag` and
  `SearchFlag` tokens). It also defines `ArgvView`, the entries a callee reads before the
  first NULL.
- `Protocol`: the reading side of the rewritten vector, `ParseCommand` and `Decode`. It
  follows the layout the encoder promises: metadata up to the separator, the original
  command after it. This consumer is not part of the library. It is here as the reference
  definition the encoder is proved against.
- `Ear`: the variants, the Serializable protocol, the copiers, `forward` and the `apply`
  overloads.

The C++ constructors of `Execve`, `Execvpe`, `ExecvP`, `Spawn` and `Spawnp` only store
their arguments. They become the constructors of the datatype `Ear.Execution`.
Serializable becomes the closed datatype `Ear.Serializer`. It has two cases:
`Library(words, bound)` stands for the session serializer, and `Encoder(call)` stands for
the `ExecutionSerializer` a variant builds from its estimator and copier lambdas.
`Serializer.Estimate` holds the estimator lambdas. `Ear.Copy` holds `copy()`.

The real functions are recording stand-ins. An `apply` returns `Result<Invocation>`, the
exact arguments the resolved function receives, or the resolver's failure. The buffer is
an `array<Slot>` allocated without initialisation, as the C++ variable-length array is.
Properties are stated on the written prefix and on what a callee reads up to the NULL.

The model keeps three details of the code that are easy to misread:

- The augmented `Spawnp::apply` resolves `posix_spawn`, not `posix_spawnp`
  (Execution.cc:265).
- The augmented `Execvpe` and `ExecvP` applies call `execve` (the shared `forward` at
  Execution.cc:67). `ExecvP` therefore gets an `envp` on that path but not on
  pass-through.
- The variant's encoding starts at the cursor the session returns, not at
  `session.estimate()` (Execution.cc:57-58). When a session reserves more slots than it
  writes, the unwritten slots sit at the end of the buffer, after the NULL.

## Model

| member | source | states |
|---|---|---|
| `Slots.ArgvView` | source/libear_a/Execution.cc:111-112 | The entries before the first NULL. They contain no NULL and are a prefix of the vector followed by a NULL; `None` exactly when the vector has no NULL. |
| `Slots.ArgvViewOfTerminated` | source/libear_a/Execution.cc:114-116 | A vector whose first NULL comes right after `p` shows exactly `p` to the callee, whatever slots follow the NULL. |
| `Protocol.ParseAfterSession` | source/libear_a/Execution.cc:57-58 | Session words written in front of a parsable vector come back, in order, as the session part of the parsed command; nothing else changes. |
| `Ear.ApplyDirect` | source/libear_a/Execution.cc:96-262 | Pass-through for each variant. It fails with the resolver's error exactly when the variant's own symbol is missing. Otherwise it calls that symbol with the caller's own argv (terminator included, so the callee reads the original entries), envp, path or file, and spawn arguments. `ExecvP` passes (file, search path, argv) and no envp. |
| `Ear.Header` | source/libear_a/Execution.cc:146-149 | Every variant's header is non-empty, ends in the separator and contains no NULL (one slot for Execve/Spawn at lines 115 and 225; three for Execvpe/Spawnp, also lines 276-278; five for ExecvP at lines 180-184). |
| `Ear.Encoding` | source/libear_a/Execution.cc:107-116 | Each estimator is exact: the encoding has `length(argv) + 2`, `+ 4` or `+ 6` slots (lines 108, 140, 173, 218, 269), ends in NULL and has no NULL before it. |
| `Ear.EncodingParses` | source/libear_a/Execution.cc:175-185 | Header plus argv parse back into the variant's own file, search path and original argv, for all five variants. |
| `Ear.ArrayCopy` | source/libear_a/Execution.cc:116 | `array::copy` writes the source range and one NULL at the cursor. It returns the cursor past the NULL and leaves every other slot unchanged. |
| `Ear.WriteHeader` | source/libear_a/Execution.cc:179-184 | The unchecked `*it++ = …` header writes put exactly the header at the cursor and change nothing else; the caller's room requirement keeps them in bounds. |
| `Ear.CopyExecution` | source/libear_a/Execution.cc:110-117 | A variant's copier (also lines 142-151, 175-186, 220-227, 271-280), given `estimate()` slots of room, writes exactly its encoding at the cursor. It returns `begin + estimate()` and changes nothing else. |
| `Ear.CopySession` | source/libear_a/Execution.cc:57 | The session's copy writes its words at the cursor, returns the cursor past them and changes nothing else. |
| `Ear.Copy` | source/libear_a/Execution.cc:39-41 | `Serializable::copy` for a serializer that keeps its contract writes its output at `begin`, stays below `end` and changes nothing outside what it writes. |
| `Ear.Forward` | source/libear_a/Execution.cc:49-61 | The buffer has exactly `session.estimate() + execution.estimate()` slots. Its prefix is the session's output followed immediately by the execution's output, with no gap and no overlap. The continuation's result is returned for `(buffer[0], buffer)`. |
| `Ear.Fill` | source/libear_a/Execution.cc:54-58 | The session copies from the buffer's start and the execution from the session's cursor, both with the buffer's end as bound. The buffer's prefix is then the two outputs back to back. |
| `Ear.ForwardExec` | source/libear_a/Execution.cc:63-77 | A missing `execve` is returned as that failure, and nothing is invoked. Otherwise the merged buffer goes to `execve` as path `buffer[0]` and argv `buffer`, with envp unchanged. |
| `Ear.ApplyAugmented` | source/libear_a/Execution.cc:213-240 | Augmented apply for every variant (also lines 105-120, 137-154, 170-189, 264-293). Exec variants resolve `execve` and spawn variants `posix_spawn`. A failed lookup is returned unchanged. Otherwise the real function gets the merged buffer of `session.estimate() + execution.estimate()` slots, with pid, file actions, attributes and envp unchanged. |
| `Ear.Apply` | source/libear_a/Execution.cc:84-88 | No state yields exactly the pass-through result. A state yields the augmented outcome for that state's session serializer. |
| `Ear.MergedDecodes` | source/libear_a/Execution.cc:57-60 | A buffer holding session words followed by a variant's encoding starts with the first word, or with the header when there are no words. The part before the NULL decodes to the words, the variant's file and search path, and its original argv, whatever the unwritten slots hold. |
| `Ear.AugmentedDecodes` | source/libear_a/Execution.cc:57-60 | After a successful augmented call, the program run is the session's first slot. Envp and the spawn arguments are the caller's. The argv the callee reads decodes to the session words, the variant's file and search path, and the original argv. |
| `Ear.PassThroughExample` | source/libear_a/Execution.cc:96-103 | Without a session, `execve("/usr/bin/cc", ["cc","-c","a.c"], envp)` reaches the real `execve` with the same path, the vector `["cc","-c","a.c",NULL]` and the same envp. |
| `Ear.HelperExample` | source/libear_a/Execution.cc:105-119 | The same call under a session that writes `["/path/to/helper"]` (estimate 1) runs `/path/to/helper` with `["/path/to/helper", separator, "cc", "-c", "a.c", NULL]` and the same envp. |

## Left out

- Symbol resolution (`dlsym`, any caching and its thread safety) is left out. The resolver is a record of one `Result` per symbol.
- The real `execve`/`posix_spawn` behaviour (process replacement, `errno`, PATH search, the returned `int`) is left out. The stand-ins record their arguments instead.
- `LibrarySessionSerializer` and `State::get_input()` are not part of this model. The state is the list of words its serializer writes plus the slot count it reserves, and it is required to keep the Serializable contract (`|words| <= bound`).
- `array::length` and `array::copy` (Array.h) are not part of this model. `argv` is modelled as its non-NULL entries, so `length(argv)` is `|argv|`. `copy` follows its use in this file: it copies, writes one NULL, and returns the cursor past it.
- Pointer identity is modelled by value: equal slots or `Ptr` values stand for the same pointer.
- The concrete values of `command_separator`, `file_flag` and `search_flag` are left out. They are distinct tokens.
- The C++ mechanics are not modelled: `std::function` wrapping, `const_cast`, the runtime-sized stack array, and the lifetime of the objects `ExecutionSerializer` refers to.
- Ear.ApplyAugmented: the contract does not say that no buffer is allocated when the lookup fails. The method does return before calling `Forward` in that case.
