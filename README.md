# Basic Linux Shell, modelled in Dafny

This project models the core of a small interactive shell written in C, in the
single source file `main.c`. The shell runs a read–parse–execute loop:

- `bls_parse_line` cuts a line into whitespace-separated arguments.
  - It calls `strtok` with the delimiters space, tab, newline, carriage return and BEL.
  - It collects the tokens into a NULL-terminated argument vector.
  - The vector starts with 64 slots and grows by 64 through `realloc` whenever it fills.
- `bls_execute_command` does the dispatch.
  - An empty command returns 1.
  - Otherwise it searches the builtin table `cd`, `exit`, `help` in order.
  - A command that matches no builtin goes to `bls_launch_command`, which returns 1.
- `bls_loop` repeats this until a command returns 0.

Modules:

- `Wrappers` holds `Option`. `None` plays the part of a NULL pointer.
- `Tokenizer` is the value-level meaning of tokenizing:
  - the delimiter set;
  - the C string a buffer holds (up to its first NUL);
  - the tokens as the maximal delimiter-free runs, together with their positions (`Spans`);
  - the buffer as `strtok` leaves it, with a NUL written after every token (`Terminated`).
- `Strtok` is `strtok` itself (ISO C11, section 7.24.5.8), run in place on a `char` array.
  - The saved pointer that `strtok` keeps between calls is an explicit `save` position.
  - `StrtokState` says what the buffer and that position look like between calls.
- `ParseLoop` is the loop invariant of `bls_parse_line` and the proof that one turn keeps it.
- `Parser` is `bls_parse_line`:
  - the argument vector is an `array<Option<string>>`;
  - `realloc` is a copy into a fresh, larger array;
  - the capacity is given in closed form.
- `Builtins` covers the registry and the dispatch:
  - the builtin table and its first-match lookup;
  - the handlers' results and their effect on the working directory;
  - `Dispatch`, the meaning of `bls_execute_command` on an argument list;
  - the working directory is a `Path`, and the `chdir` system call is an oracle that returns the new directory or fails.
- `Repl` is the running shell.
  - `Run` is the meaning of `bls_loop` over a sequence of input lines.
  - Class `Shell` holds the working directory and the `chdir` oracle.
  - Its methods are the handlers, `bls_execute_command` (a loop over the table) and `bls_loop` (a loop over lines).
  - Each method is proved against `Handle`, `Dispatch` or `Run`.

## Model

| member | source | states |
|---|---|---|
| Tokenizer.CLen | main.c:120 | strtok reads the line as a C string. The length is at most the buffer's size, no NUL comes before it, and a NUL sits at it when it is inside the buffer. |
| Tokenizer.CString | main.c:120 | The C string is the NUL-free prefix of the buffer that stops at the first NUL: the character right after it, when the buffer goes on, is NUL. |
| Tokenizer.WordEnd | main.c:120-134 | A token runs up to the first delimiter or the end of the string. Everything before that point is a non-delimiter. |
| Tokenizer.TokensAreMaximalRuns | main.c:120-135 | The tokens are exactly the maximal delimiter-free runs of the line, from left to right. Each run is non-empty, bounded by delimiters or the string's edges, and runs do not overlap and appear in order. Every non-delimiter lies in one of them, and token k is the text of run k. |
| Tokenizer.TokensValid | main.c:109-134 | Every token is non-empty and contains none of space, tab, newline, carriage return or BEL. |
| Tokenizer.TokensFromSkip | main.c:120-134 | A stretch of delimiters yields no token: tokenizing after it gives the same tokens. |
| Tokenizer.TokensEmptyIff | main.c:120-121 | A line yields no token if and only if it is empty or made only of delimiters. |
| Tokenizer.TokensFromSuffix | main.c:134 | Continuing from a saved position gives the tokens of the rest of the line. |
| Tokenizer.TokensOfJoin | main.c:120-135 | Any list of valid tokens, written out with single spaces between them, is split back into exactly that list. |
| Tokenizer.TerminatedCuts | main.c:120-134 | Cutting keeps the buffer's length. Every span of the C string keeps its characters and is followed by a NUL, unless it runs to the end of the buffer. No position other than the end of a span changes. |
| Tokenizer.ArgumentViews | main.c:122 | Every argument pointer is a view into the cut buffer. The C string that starts where token k starts is exactly token k. |
| Strtok.SkipDelims | main.c:120 | The index of the first character that is neither a delimiter nor the NUL (the strspn step of strtok). |
| Strtok.ScanWord | main.c:120 | The index of the first delimiter or NUL after a token's start (the strcspn step of strtok). |
| Strtok.Next | main.c:120-134 | One call of strtok. It either reports that no token or span is left, with the saved position at the end of the C string, or hands out the next span of the line: the returned start and end are exactly the first remaining span, its text is the next token, a NUL (or the buffer's end) follows it, and the remaining tokens and spans are those after the new saved position. |
| Strtok.CutComplete | main.c:120-135 | Once strtok has reached the end of the string, the buffer is the fully cut line. |
| ParseLoop.CollectingStep | main.c:121-135 | One turn of the loop keeps its invariant. The first n slots hold the first n tokens, the pointers handed out so far are the starts of the first n spans, and the token in hand is token n at span n. |
| Parser.Capacity | main.c:108-127 | The capacity for n tokens always leaves room for the sentinel, exceeds n by at most 64, and is a multiple of 64. |
| Parser.CapacityStep | main.c:123-127 | Storing one more token grows the buffer by 64 exactly when the count reaches the capacity, and leaves it alone otherwise. |
| Parser.GrowthPoints | main.c:125-127 | The buffer grows at n = 64, 128, … tokens and at no other count. |
| Parser.Realloc | main.c:127 | realloc gives a buffer of the new size that keeps the old contents. The new slots are NULL. |
| Parser.ArgList | main.c:136 | Reading a vector up to its first NULL yields entries that are all non-NULL. A NULL follows them when the vector is longer. |
| Parser.ArgListOfVector | main.c:122-136 | A vector holding the arguments in order, followed by a NULL, reads back as exactly those arguments. |
| Parser.StoreToken | main.c:122-132 | Storing a token puts it in slot n and keeps slots 0..n-1. The vector stays the same array while it has room, and is replaced by a fresh one from realloc exactly when the count reaches the capacity; its length goes from Capacity(n) to Capacity(n+1). |
| Parser.CollectStep | main.c:121-135 | One turn of the tokenizing loop keeps the loop invariant and the closed-form capacity. |
| Parser.ParseLine | main.c:107-138 | The vector has 64*(n/64+1) slots, holds the n tokens of the line in order at 0..n-1, and has NULL at n, so it reads back as exactly the tokens. The line is left with a NUL after each token. The pointer stored in slot k is the start of span k, and the C string the cut line holds there is exactly the token in slot k. |
| Parser.PointerViews | main.c:122 | In the cut buffer, the C string at the start of span k is token k, for every k. |
| Builtins.BuiltinFuncsSize | main.c:36-51 | The number of handlers equals the number of builtin names. |
| Builtins.LookupFrom | main.c:177-181 | The search returns the first index from i on whose name matches, with no match before it. It reports no match if and only if no later name matches. |
| Builtins.Lookup | main.c:177-181 | A name is found if and only if it is in the builtin table, and the slot found carries that name. |
| Builtins.LookupName | main.c:36-40 | Each builtin name is found at its own slot of the table. |
| Builtins.Handle | main.c:186-212 | A handler returns 0 exactly when it is exit, and 1 otherwise. Only cd with an argument can move the shell, and only to where chdir reports. A successful chdir is always followed. |
| Builtins.LaunchStatus | main.c:140-168 | Launching a program returns exactly 1, so it never stops the loop. |
| Builtins.Dispatch | main.c:171-184 | An empty command returns 1 and runs nothing. A command is launched exactly when it names no builtin, and then it returns 1 and leaves the directory alone. The result is 0 exactly for exit. The directory changes only through cd with an argument, to where chdir moved it. |
| Builtins.BuiltinShadows | main.c:177-183 | A command named like a builtin runs that builtin's handler at its own slot, and nothing is launched. |
| Builtins.ExitAndHelpIgnoreArguments | main.c:198-212 | exit returns 0 and help returns 1 whatever their arguments, and neither moves the shell. |
| Builtins.CdOutcome | main.c:186-196 | cd returns 1 in every case. Without an argument it leaves the directory unchanged. With one, it moves to where chdir reports, or stays put if chdir fails. |
| Repl.Run | main.c:70-84 | The loop stops exactly after the first line whose command is exit, having consumed that many lines. Without such a line it consumes all input. |
| Repl.RunAppend | main.c:75-83 | Input is processed line after line with nothing carried over but the directory: when a first part of the input holds no exit line, running the whole input is running that part and then the rest from the directory it left, with the consumed counts added. |
| Repl.RunKeepsCwd | main.c:75-83 | Input without a cd line that names a directory leaves the working directory unchanged. |
| Repl.RunIgnoresRest | main.c:75-83 | Lines after the exit line are never read, so appending input does not change the run. |
| Repl.Shell.Cd | main.c:186-196 | bls_cd on the vector. It reads args[1] only through the NULL-terminated vector, and its status and new directory are Handle's for cd. |
| Repl.Shell.Exit | main.c:198-200 | bls_exit returns the status of exit, which is 0. |
| Repl.Shell.Help | main.c:202-212 | bls_help returns the status of help, which is 1. |
| Repl.Shell.Launch | main.c:140-169 | bls_launch_command returns the launcher's status, which is 1. |
| Repl.Shell.ExecuteCommand | main.c:171-184 | The loop over the table returns Dispatch's status and leaves the shell in Dispatch's directory. |
| Repl.Shell.ReadLine | main.c:90-105 | Each line arrives in a fresh buffer. |
| Repl.Shell.Loop | main.c:70-84 | The do-while loop consumes the lines, ends for the reason Run gives, and leaves the directory Run gives. |

## Left out

- Reading from the terminal is modelled as a sequence of lines.
  - `getline` in `bls_read_line` (main.c:90-105) is replaced by that sequence.
  - Running out of lines (`EndOfInput`) stands for the end of file, where the process exits with success.
  - The read-error exit is not modelled.
- The body of `bls_launch_command` (fork, execvp, wait, and the child's exit) is not modelled. Only its return of 1 is kept. A launched program cannot change the shell's directory, so the model leaves the directory alone.
- Output is not modelled: every `printf`, `fprintf` and `perror` (the welcome and goodbye banners, the prompt, the help text, the diagnostics). `bls_init`, `bls_shutdown` and `main` do nothing else and are not part of this model.
- The real `chdir` system call is the `Chdir` oracle. It maps the current directory and the requested path to the new directory, or to `None` on failure.
- Builtins.Chdir: the oracle is fixed for the whole session, so programs launched between commands cannot change what chdir returns (a launched `mkdir d` does not make a later `cd d` succeed).
- The allocation-failure exits after `malloc` and `realloc` (main.c:114-118, 127-131) are not modelled: allocation always succeeds. `free` is not modelled either.
- Parser.Realloc: the slots realloc adds are NULL in the model, and so are the slots of the vector malloc first returns (main.c:114). In C their contents are indeterminate, but the parser writes every slot it later reads, so nothing depends on them.
- Parser.ParseLine: `num_tokens` and `buf_size` are unbounded integers, so the overflow of C's `int` on lines with more than about 2^31 tokens is not modelled.
- Parser.ParseLine: the vector stores copies of the tokens, not pointers into the line. The pointers C stores are kept as the ghost sequence `starts`, and ParseLine proves that the C string at each of them in the cut line is the copy in the same slot.
- Strtok.Next: strtok's hidden static pointer is an explicit position passed in and returned. Calls of strtok from elsewhere, which would disturb it, are not modelled.
- Repl.Shell.Launch: it states only the status. What the launched program does is not modelled.
- C's `char` is a byte, while a Dafny `char` is a Unicode scalar value. Nothing depends on the difference: the delimiters are ASCII characters and `strcmp` compares the names character by character.
