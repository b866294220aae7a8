/** File requests: which files one request queues, and the file and byte caps they stay under. The catalogue
    is a map from a requested name to the files it stands for; whether a file can be copied is part of it. */
module FreqQuota {
  import opened Text

  const DEFAULT_MAX_FILES: nat := 5
  const DEFAULT_MAX_BYTES: nat := 5242880

  datatype Match = Match(filename: string, size: nat, copies: bool)

  /** What a request looks up: whether requests are served, `resolveFreqFiles` and `FreqFilePassword` by name, the
      newest nodelist and nodediff, and the configured caps. */
  datatype Env = Env(enabled: bool, catalog: map<string, seq<Match>>, passwords: map<string, string>,
                     nodelist: Option<Match>, nodediff: Option<Match>, maxFiles: int, maxBytes: int)

  /** `EffectiveFreqMaxFiles`, `EffectiveFreqMaxBytes` */
  function MaxFiles(env: Env): (n: int)
    ensures n > 0
  {
    if env.maxFiles > 0 then env.maxFiles else DEFAULT_MAX_FILES
  }

  function MaxBytes(env: Env): (n: int)
    ensures n > 0
  {
    if env.maxBytes > 0 then env.maxBytes else DEFAULT_MAX_BYTES
  }

  function Bytes(files: seq<Match>): nat {
    if files == [] then 0 else Bytes(files[..|files| - 1]) + files[|files| - 1].size
  }

  lemma BytesSnoc(files: seq<Match>, m: Match)
    ensures Bytes(files + [m]) == Bytes(files) + m.size
  {
    assert (files + [m])[..|files|] == files;
  }

  lemma {:induction false} BytesAppend(a: seq<Match>, b: seq<Match>)
    ensures Bytes(a + b) == Bytes(a) + Bytes(b)
    decreases |b|
  {
    if b == [] {
      assert a + b == a;
    } else {
      assert (a + b)[..|a + b| - 1] == a + b[..|b| - 1];
      BytesAppend(a, b[..|b| - 1]);
    }
  }

  // ---------------------------------------------------------------- one batch

  /** What `queueFreqRawFiles` adds to a batch it has queued so far; a cap of 0 or less is no cap. */
  function Queued(batch: seq<Match>, matches: seq<Match>, maxFiles: int, maxBytes: int): seq<Match>
    decreases |matches|
  {
    if matches == [] then batch
    else
      var m := matches[0];
      if maxFiles > 0 && |batch| >= maxFiles then batch
      else if maxBytes > 0 && m.size > maxBytes then Queued(batch, matches[1..], maxFiles, maxBytes)
      else if maxBytes > 0 && Bytes(batch) + m.size > maxBytes then batch
      else Queued(if m.copies then batch + [m] else batch, matches[1..], maxFiles, maxBytes)
  }

  /** A batch stays under each cap that is a cap. */
  lemma {:induction false} BatchIsCapped(batch: seq<Match>, matches: seq<Match>, maxFiles: int, maxBytes: int)
    requires maxFiles > 0 ==> |batch| <= maxFiles
    requires maxBytes > 0 ==> Bytes(batch) <= maxBytes
    ensures var q := Queued(batch, matches, maxFiles, maxBytes);
      && (maxFiles > 0 ==> |q| <= maxFiles) && (maxBytes > 0 ==> Bytes(q) <= maxBytes)
      && batch <= q && (forall m :: m in q ==> m in batch || (m in matches && m.copies))
    decreases |matches|
  {
    hide Bytes;
    if matches != [] {
      var m := matches[0];
      BytesSnoc(batch, m);
      if !(maxFiles > 0 && |batch| >= maxFiles) {
        if maxBytes > 0 && m.size > maxBytes {
          BatchIsCapped(batch, matches[1..], maxFiles, maxBytes);
        } else if !(maxBytes > 0 && Bytes(batch) + m.size > maxBytes) {
          BatchIsCapped(if m.copies then batch + [m] else batch, matches[1..], maxFiles, maxBytes);
        }
      }
    }
  }

  function Copyable(matches: seq<Match>): seq<Match> {
    if matches == [] then [] else (if matches[0].copies then [matches[0]] else []) + Copyable(matches[1..])
  }

  /** Called with nothing left of either allowance, a batch would not be empty but unlimited. */
  lemma {:induction false} ZeroMeansUnlimited(batch: seq<Match>, matches: seq<Match>)
    ensures Queued(batch, matches, 0, 0) == batch + Copyable(matches)
    decreases |matches|
  {
    if matches == [] {
      assert batch + [] == batch;
    } else {
      var m := matches[0];
      var next := if m.copies then batch + [m] else batch;
      ZeroMeansUnlimited(next, matches[1..]);
      assert next + Copyable(matches[1..]) == batch + Copyable(matches);
    }
  }

  /** `queueFreqRawFiles` */
  method QueueFreqRawFiles(matches: seq<Match>, maxFiles: int, maxBytes: int) returns (queued: seq<Match>)
    ensures queued == Queued([], matches, maxFiles, maxBytes)
  {
    hide Queued, Bytes;
    queued := [];
    assert matches[0..] == matches;
    for i := 0 to |matches|
      invariant Queued(queued, matches[i..], maxFiles, maxBytes) == Queued([], matches, maxFiles, maxBytes)
    {
      var m := matches[i];
      assert matches[i..][0] == m && matches[i..][1..] == matches[i + 1..];
      QueuedStep(queued, matches[i..], maxFiles, maxBytes);
      if maxFiles > 0 && |queued| >= maxFiles {
        return;
      }
      if maxBytes > 0 && m.size > maxBytes {
        continue;
      }
      var batchBytes := BatchBytes(queued);
      if maxBytes > 0 && batchBytes + m.size > maxBytes {
        return;
      }
      if !m.copies {
        continue;
      }
      queued := queued + [m];
    }
    assert matches[|matches|..] == [];
    QueuedStep(queued, [], maxFiles, maxBytes);
  }

  method BatchBytes(queued: seq<Match>) returns (bytes: nat)
    ensures bytes == Bytes(queued)
  {
    bytes := 0;
    for i := 0 to |queued|
      invariant bytes == Bytes(queued[..i])
    {
      assert queued[..i + 1] == queued[..i] + [queued[i]];
      BytesSnoc(queued[..i], queued[i]);
      bytes := bytes + queued[i].size;
    }
    assert queued[..|queued|] == queued;
  }

  lemma QueuedStep(batch: seq<Match>, matches: seq<Match>, maxFiles: int, maxBytes: int)
    ensures Queued(batch, matches, maxFiles, maxBytes) ==
      if matches == [] then batch
      else if maxFiles > 0 && |batch| >= maxFiles then batch
      else if maxBytes > 0 && matches[0].size > maxBytes then Queued(batch, matches[1..], maxFiles, maxBytes)
      else if maxBytes > 0 && Bytes(batch) + matches[0].size > maxBytes then batch
      else Queued(if matches[0].copies then batch + [matches[0]] else batch, matches[1..], maxFiles, maxBytes)
  {
    hide Bytes;
  }

  // ---------------------------------------------------------------- commands

  function UpperChar(c: char): char {
    if 'a' <= c <= 'z' then (c as int - 32) as char else c
  }

  /** `strings.ToUpper`, on ASCII. */
  function Upper(s: string): (r: string)
    ensures |r| == |s|
  {
    seq(|s|, i requires 0 <= i < |s| => UpperChar(s[i]))
  }

  function IndexOf(s: string, c: char): (i: nat)
    ensures i <= |s| && c !in s[..i] && (i < |s| ==> s[i] == c)
  {
    if s == [] || s[0] == c then 0 else 1 + IndexOf(s[1..], c)
  }

  /** `splitFreqFilePassword`: a name, and a password after `!` or as a second word. */
  function SplitFilePassword(text: string): (string, string) {
    var line := TrimSpace(text);
    var i := IndexOf(line, '!');
    if 0 < i < |line| then (TrimSpace(line[..i]), TrimSpace(line[i + 1..]))
    else
      var fields := Fields(line);
      if |fields| >= 2 && '*' !in fields[0] && '?' !in fields[0] then (fields[0], fields[1])
      else if fields == [] then ("", "")
      else (fields[0], "")
  }

  datatype Command = Blank | Talk | ListFile(file: Option<Match>) | Refused | Named(matches: seq<Match>)

  /** What a line asks for. */
  function CommandOf(env: Env, text: string): Command {
    var line := TrimSpace(text);
    if line == "" then Blank
    else
      var (name, password) := SplitFilePassword(line);
      var upper := Upper(name);
      if upper == "%HELP" || upper == "HELP" || upper == "%LIST" || upper == "LIST" || upper == "FILES" then Talk
      else if upper == "NODELIST" || upper == "%NODELIST" then ListFile(env.nodelist)
      else if upper == "NODEDIFF" || upper == "%NODEDIFF" then ListFile(env.nodediff)
      else if name in env.passwords && env.passwords[name] != "" && env.passwords[name] != password then Refused
      else Named(if name in env.catalog then env.catalog[name] else [])
  }

  /** Running totals, and which files they count: those asked for by name, and nodelists. */
  datatype Tally = Tally(total: int, bytes: int, named: seq<Match>, lists: seq<Match>)

  /** The file of a NODELIST or NODEDIFF command, capped only by its own size. */
  function ListQueued(file: Option<Match>): seq<Match> {
    if file.None? then [] else Queued([], [file.value], 1, file.value.size)
  }

  function AfterCommand(env: Env, t: Tally, text: string): Tally {
    match CommandOf(env, text)
    case ListFile(file) =>
      var q := ListQueued(file);
      t.(total := t.total + |q|, bytes := t.bytes + Bytes(q), lists := t.lists + q)
    case Named(matches) =>
      if t.total >= MaxFiles(env) || t.bytes >= MaxBytes(env) then t
      else
        var q := Queued([], matches, MaxFiles(env) - t.total, MaxBytes(env) - t.bytes);
        t.(total := t.total + |q|, bytes := t.bytes + Bytes(q), named := t.named + q)
    case _ => t
  }

  function AfterCommands(env: Env, lines: seq<string>): Tally {
    if lines == [] then Tally(0, 0, [], []) else AfterCommand(env, AfterCommands(env, lines[..|lines| - 1]), lines[|lines| - 1])
  }

  predicate Counts(t: Tally) {
    t.total == |t.named| + |t.lists| && t.bytes == Bytes(t.named) + Bytes(t.lists)
  }

  predicate Capped(env: Env, t: Tally) {
    |t.named| <= MaxFiles(env) && Bytes(t.named) <= MaxBytes(env)
  }

  lemma CommandKeepsCaps(env: Env, t: Tally, text: string)
    requires Counts(t) && Capped(env, t)
    ensures Counts(AfterCommand(env, t, text)) && Capped(env, AfterCommand(env, t, text))
  {
    hide CommandOf, Queued, Bytes, ListQueued;
    match CommandOf(env, text)
    case ListFile(file) =>
      BytesAppend(t.lists, ListQueued(file));
    case Named(matches) =>
      var q := Queued([], matches, MaxFiles(env) - t.total, MaxBytes(env) - t.bytes);
      if !(t.total >= MaxFiles(env) || t.bytes >= MaxBytes(env)) {
        NoBytes();
        BatchIsCapped([], matches, MaxFiles(env) - t.total, MaxBytes(env) - t.bytes);
        BytesAppend(t.named, q);
      }
    case _ =>
  }

  lemma NoBytes()
    ensures Bytes([]) == 0
  {
  }

  /** The whole request; nothing is queued when requests are switched off. */
  function Fulfilled(env: Env, lines: seq<string>): Tally {
    if env.enabled then AfterCommands(env, lines) else Tally(0, 0, [], [])
  }

  /** In one request, whatever its commands and their order, the files queued by name or wildcard stay under
      the file cap and the byte cap, and the totals reported count exactly the files queued. */
  lemma RequestIsCapped(env: Env, lines: seq<string>)
    ensures Counts(Fulfilled(env, lines)) && Capped(env, Fulfilled(env, lines))
  {
    hide AfterCommands, Counts, Capped;
    if env.enabled {
      CommandsKeepCaps(env, lines);
    } else {
      NothingCounted(Fulfilled(env, lines));
      NothingCapped(env, Fulfilled(env, lines));
    }
  }

  lemma {:induction false} CommandsKeepCaps(env: Env, lines: seq<string>)
    ensures Counts(AfterCommands(env, lines)) && Capped(env, AfterCommands(env, lines))
    decreases |lines|
  {
    hide AfterCommand, Counts, Capped;
    if lines == [] {
      NothingCounted(AfterCommands(env, lines));
      NothingCapped(env, AfterCommands(env, lines));
    } else {
      CommandsKeepCaps(env, lines[..|lines| - 1]);
      CommandKeepsCaps(env, AfterCommands(env, lines[..|lines| - 1]), lines[|lines| - 1]);
    }
  }

  lemma NothingCounted(t: Tally)
    requires t.total == 0 && t.bytes == 0 && t.named == [] && t.lists == []
    ensures Counts(t)
  {
    hide Bytes;
    NoBytes();
  }

  lemma NothingCapped(env: Env, t: Tally)
    requires t.named == []
    ensures Capped(env, t)
  {
    hide Bytes, MaxFiles, MaxBytes;
    NoBytes();
  }

  /** `FulfillFreqCommands` */
  method FulfillFreqCommands(env: Env, lines: seq<string>)
    returns (queuedTotal: int, queuedBytes: int, named: seq<Match>, lists: seq<Match>)
    ensures Tally(queuedTotal, queuedBytes, named, lists) == Fulfilled(env, lines)
  {
    hide CommandOf, Queued, Bytes;
    queuedTotal, queuedBytes, named, lists := 0, 0, [], [];
    if !env.enabled {
      return;
    }
    var maxFiles, maxBytes := MaxFiles(env), MaxBytes(env);
    for i := 0 to |lines|
      invariant Tally(queuedTotal, queuedBytes, named, lists) == AfterCommands(env, lines[..i])
    {
      assert lines[..i + 1][..i] == lines[..i];
      var command := CommandOf(env, lines[i]);
      match command
      case ListFile(file) =>
        if file.Some? {
          var q := QueueFreqRawFiles([file.value], 1, file.value.size);
          var n := BatchBytes(q);
          queuedTotal, queuedBytes, lists := queuedTotal + |q|, queuedBytes + n, lists + q;
        } else {
          NoBytes();
        }
      case Named(matches) =>
        if queuedTotal >= maxFiles || queuedBytes >= maxBytes {
          continue;
        }
        var remainingFiles, remainingBytes := maxFiles - queuedTotal, maxBytes - queuedBytes;
        var q := QueueFreqRawFiles(matches, remainingFiles, remainingBytes);
        NoBytes();
        assert q[..0] == [] && named + [] == named;
        ghost var total0, bytes0, named0 := queuedTotal, queuedBytes, named;
        for j := 0 to |q|
          invariant queuedTotal == total0 + j && queuedBytes == bytes0 + Bytes(q[..j]) && named == named0 + q[..j]
        {
          assert q[..j + 1] == q[..j] + [q[j]];
          BytesSnoc(q[..j], q[j]);
          queuedTotal := queuedTotal + 1;
          queuedBytes := queuedBytes + q[j].size;
          named := named + [q[j]];
        }
        assert q[..|q|] == q;
      case _ =>
    }
    assert lines[..|lines|] == lines;
  }
}
