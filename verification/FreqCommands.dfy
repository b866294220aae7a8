/** The command lines of a file request, written out, and which of the files asked for make up a batch. */
module FreqCommands {
  import opened Text
  import opened FreqQuota

  // ---------------------------------------------------------------- which files

  /** Files that are too large on their own are passed over. */
  function SmallEnough(matches: seq<Match>, maxBytes: int): seq<Match> {
    if matches == [] then []
    else (if matches[0].size > maxBytes then [] else [matches[0]]) + SmallEnough(matches[1..], maxBytes)
  }

  /** The batch may go on with this file. */
  predicate Fits(batch: seq<Match>, m: Match, maxFiles: int, maxBytes: int) {
    |batch| < maxFiles && Bytes(batch) + m.size <= maxBytes
  }

  lemma {:induction false} FrontFrom(batch: seq<Match>, matches: seq<Match>, maxFiles: int, maxBytes: int) returns (k: nat)
    requires maxFiles > 0 && maxBytes > 0
    ensures var c := SmallEnough(matches, maxBytes);
      && k <= |c| && Queued(batch, matches, maxFiles, maxBytes) == batch + Copyable(c[..k])
      && (forall j :: 0 <= j < k ==> Fits(batch + Copyable(c[..j]), c[j], maxFiles, maxBytes))
      && (k < |c| ==> !Fits(batch + Copyable(c[..k]), c[k], maxFiles, maxBytes))
    decreases |matches|
  {
    hide Bytes, Queued, Copyable;
    var c := SmallEnough(matches, maxBytes);
    NothingCopied(batch);
    QueuedStep(batch, matches, maxFiles, maxBytes);
    assert c[..0] == [];
    k := 0;
    if matches != [] {
      var m := matches[0];
      if |batch| >= maxFiles {
      } else if m.size > maxBytes {
        assert c == SmallEnough(matches[1..], maxBytes);
        k := FrontFrom(batch, matches[1..], maxFiles, maxBytes);
      } else {
        var rest := SmallEnough(matches[1..], maxBytes);
        assert c == [m] + rest;
        if Bytes(batch) + m.size <= maxBytes {
          var next := if m.copies then batch + [m] else batch;
          var n := FrontFrom(next, matches[1..], maxFiles, maxBytes);
          k := n + 1;
          forall j | 0 <= j <= n ensures batch + Copyable(c[..j + 1]) == next + Copyable(rest[..j]) {
            FrontCons(batch, m, rest, j);
          }
          forall j | 0 <= j < k ensures Fits(batch + Copyable(c[..j]), c[j], maxFiles, maxBytes) {
            if j > 0 {
              assert batch + Copyable(c[..j - 1 + 1]) == next + Copyable(rest[..j - 1]);
            }
          }
        }
      }
    }
  }

  lemma NothingCopied(batch: seq<Match>)
    ensures batch + Copyable([]) == batch
  {
  }

  lemma FrontCons(batch: seq<Match>, m: Match, rest: seq<Match>, j: nat)
    requires j <= |rest|
    ensures batch + Copyable(([m] + rest)[..j + 1]) == (if m.copies then batch + [m] else batch) + Copyable(rest[..j])
  {
    assert ([m] + rest)[..j + 1][1..] == rest[..j];
    assert batch + ([m] + Copyable(rest[..j])) == batch + [m] + Copyable(rest[..j]);
  }

  /** A batch is made of the files small enough, in order, up to the first that does not fit beside those already
      queued; of these, the ones that could be copied. */
  lemma LongestFront(matches: seq<Match>, maxFiles: int, maxBytes: int) returns (k: nat)
    requires maxFiles > 0 && maxBytes > 0
    ensures var c := SmallEnough(matches, maxBytes);
      && k <= |c| && Queued([], matches, maxFiles, maxBytes) == Copyable(c[..k])
      && (forall j :: 0 <= j < k ==> Fits(Copyable(c[..j]), c[j], maxFiles, maxBytes))
      && (k < |c| ==> !Fits(Copyable(c[..k]), c[k], maxFiles, maxBytes))
  {
    hide Queued, Fits;
    k := FrontFrom([], matches, maxFiles, maxBytes);
    var c := SmallEnough(matches, maxBytes);
    forall j | 0 <= j <= k ensures [] + Copyable(c[..j]) == Copyable(c[..j]) {
    }
  }

  // ---------------------------------------------------------------- the lines

  /** A word without a password mark. */
  predicate PlainWord(w: string) {
    w != "" && NoSpace(w) && '!' !in w
  }

  lemma {:induction false} NotFound(s: string, c: char)
    requires c !in s
    ensures IndexOf(s, c) == |s|
  {
    if s != [] {
      NotFound(s[1..], c);
    }
  }

  lemma WordIsTrimmed(w: string)
    requires w != "" && NoSpace(w)
    ensures TrimSpace(w) == w
  {
    TrimSpaceKeeps(w);
  }

  lemma OneWord(w: string)
    requires PlainWord(w)
    ensures TrimSpace(w) == w && SplitFilePassword(w) == (w, "")
  {
    hide TrimSpace, IndexOf, Fields;
    WordIsTrimmed(w);
    NotFound(w, '!');
    FieldsCons(w, "");
    NoFields();
    assert w + "" == w;
  }

  /** A name and a password after a space. */
  lemma TwoWords(w: string, p: string)
    requires PlainWord(w) && PlainWord(p) && '*' !in w && '?' !in w
    ensures TrimSpace(w + " " + p) == w + " " + p && SplitFilePassword(w + " " + p) == (w, p)
  {
    hide TrimSpace, IndexOf, Fields;
    var line := w + " " + p;
    TrimSpaceKeeps(line);
    assert line[0] == w[0] && line[|line| - 1] == p[|p| - 1];
    NotFound(line, '!');
    assert line == w + ([' '] + p);
    FieldsCons(w, [' '] + p);
    FieldsSkip(p);
    FieldsCons(p, "");
    NoFields();
    assert p + "" == p;
  }

  /** A name and a password after a mark. */
  lemma MarkedPassword(w: string, p: string)
    requires PlainWord(w) && p != "" && NoSpace(p)
    ensures TrimSpace(w + "!" + p) == w + "!" + p && SplitFilePassword(w + "!" + p) == (w, p)
  {
    hide TrimSpace, Fields;
    var line := w + "!" + p;
    TrimSpaceKeeps(line);
    assert line[0] == w[0] && line[|line| - 1] == p[|p| - 1];
    FirstMark(w, p);
    WordIsTrimmed(w);
    WordIsTrimmed(p);
    assert line[..|w|] == w && line[|w| + 1..] == p;
  }

  lemma {:induction false} FirstMark(w: string, p: string)
    requires '!' !in w
    ensures IndexOf(w + "!" + p, '!') == |w|
  {
    if w != "" {
      assert (w + "!" + p)[1..] == w[1..] + "!" + p;
      FirstMark(w[1..], p);
    }
  }

  /** Help and listings queue nothing. */
  lemma TalkQueuesNothing(env: Env, t: Tally, w: string)
    requires w in {"%HELP", "HELP", "help", "%LIST", "LIST", "FILES"}
    ensures AfterCommand(env, t, w) == t
  {
    hide TrimSpace, SplitFilePassword, Queued, Bytes;
    assert PlainWord(w);
    OneWord(w);
    assert Upper("help") == "HELP";
    assert w != "help" ==> Upper(w) == w;
  }

  /** The newest nodelist or nodediff, whatever was queued before it. */
  lemma ListCommands(env: Env, t: Tally, f: Match)
    requires f.copies
    ensures env.nodelist == Some(f) ==>
      AfterCommand(env, t, "NODELIST") == Tally(t.total + 1, t.bytes + f.size, t.named, t.lists + [f])
    ensures env.nodediff == Some(f) ==>
      AfterCommand(env, t, "NODEDIFF") == Tally(t.total + 1, t.bytes + f.size, t.named, t.lists + [f])
    ensures env.nodelist == None ==> AfterCommand(env, t, "NODELIST") == t
    ensures env.nodediff == None ==> AfterCommand(env, t, "NODEDIFF") == t
  {
    hide TrimSpace, SplitFilePassword, Queued, Bytes;
    OneWord("NODELIST");
    OneWord("NODEDIFF");
    ListWords();
    OneFile(f);
    NoBytes();
    assert t.lists + [] == t.lists;
  }

  lemma ListWords()
    ensures Upper("NODELIST") == "NODELIST" && Upper("NODEDIFF") == "NODEDIFF"
    ensures "NODELIST" !in {"%HELP", "HELP", "%LIST", "LIST", "FILES"}
    ensures "NODEDIFF" !in {"%HELP", "HELP", "%LIST", "LIST", "FILES", "NODELIST", "%NODELIST"}
  {
    assert "NODEDIFF"[4] != "NODELIST"[4];
  }

  lemma OneFile(f: Match)
    requires f.copies
    ensures Queued([], [f], 1, f.size) == [f] && Bytes([f]) == f.size
  {
    hide Queued, Bytes;
    BytesSnoc([], f);
    NoBytes();
    assert [] + [f] == [f];
    QueuedNone([f], f.size);
    QueuedFirst(f);
  }

  lemma QueuedNone(batch: seq<Match>, maxBytes: int)
    ensures Queued(batch, [], 1, maxBytes) == batch
  {
  }

  lemma QueuedFirst(f: Match)
    requires f.copies
    ensures Queued([], [f], 1, f.size) == Queued([f], [], 1, f.size)
  {
    hide Bytes;
    NoBytes();
    assert [f][1..] == [] && [] + [f] == [f];
  }

  /** A name that no command takes for itself. */
  predicate IsName(w: string) {
    PlainWord(w) && '*' !in w && '?' !in w
    && Upper(w) !in {"%HELP", "HELP", "%LIST", "LIST", "FILES", "NODELIST", "%NODELIST", "NODEDIFF", "%NODEDIFF"}
  }

  /** A file with a password is queued for that password alone, in either form; without it nothing is. */
  lemma PasswordNeeded(env: Env, t: Tally, name: string, given: string)
    requires IsName(name) && PlainWord(given) && name in env.passwords && env.passwords[name] != ""
    ensures AfterCommand(env, t, name) == t
    ensures given != env.passwords[name] ==>
      AfterCommand(env, t, name + " " + given) == t && AfterCommand(env, t, name + "!" + given) == t
    ensures given == env.passwords[name] ==>
      && AfterCommand(env, t, name + " " + given) == AfterCommand(env.(passwords := map[]), t, name)
      && AfterCommand(env, t, name + "!" + given) == AfterCommand(env.(passwords := map[]), t, name)
  {
    hide TrimSpace, SplitFilePassword, Queued, Bytes, Upper;
    OneWord(name);
    TwoWords(name, given);
    MarkedPassword(name, given);
  }

  /** A name that needs no password queues its files under what is left of both caps, and nothing when a cap is
      reached. */
  lemma NameQueues(env: Env, t: Tally, name: string)
    requires IsName(name) && (name in env.passwords ==> env.passwords[name] == "")
    ensures var files := if name in env.catalog then env.catalog[name] else [];
      var q := Queued([], files, MaxFiles(env) - t.total, MaxBytes(env) - t.bytes);
      AfterCommand(env, t, name) ==
        if t.total >= MaxFiles(env) || t.bytes >= MaxBytes(env) then t
        else Tally(t.total + |q|, t.bytes + Bytes(q), t.named + q, t.lists)
  {
    hide TrimSpace, SplitFilePassword, Queued, Bytes, Upper;
    OneWord(name);
  }

  /** The caps: those configured, or 5 files and 5 megabytes. */
  lemma Caps(env: Env)
    ensures MaxFiles(env) == (if env.maxFiles > 0 then env.maxFiles else 5)
    ensures MaxBytes(env) == (if env.maxBytes > 0 then env.maxBytes else 5 * 1024 * 1024)
  {
  }
}
