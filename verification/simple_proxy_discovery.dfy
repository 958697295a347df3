/**
 * The pure part of `getVmIpAddress` in simple-proxy.js: what the callback
 * of the discovery command makes of its `(error, stdout, stderr)`.
 * Running the command is not modelled; `error` is only logged, so the
 * outcome depends on `stdout` and `stderr` alone.
 */
module SimpleProxyDiscovery {
  import opened Wrappers
  import opened Text

  datatype Discovery =
      /** `resolve([valid, result])`; `None` stands for JavaScript's `undefined`. */
    | Resolved(valid: bool, result: Option<string>)
      /**
       * No line of a non-empty stdout carries the key: `[0]` is `undefined`
       * and `.trim()` throws a TypeError inside the `Shell.exec` callback,
       * outside the promise executor, so it is an uncaught exception that
       * ends the Node process.
       */
    | TypeError

  /** `v.toString().trim().startsWith(key + ' ')`. */
  predicate IsKeyLine(line: string, key: string) {
    StartsWith(Trim(line), key + " ")
  }

  /**
   * A key line carries text after the key and its space: a line that
   * trims to `key + " "` alone is not one, since `trim` removes that space.
   */
  lemma KeyLineHasText(line: string, key: string)
    requires IsKeyLine(line, key)
    ensures |Trim(line)| >= |key| + 2
  {
    var t := Trim(line);
    assert t[..|key| + 1] == key + " ";
    assert t[|key|] == ' ';
    assert IsJsSpace(t[|key|]);
  }

  /**
   * An indented line made of the key, a space and text that ends in a
   * non-space is a key line.
   */
  lemma IndentedKeyLine(pad: string, key: string, rest: string)
    requires forall i :: 0 <= i < |pad| ==> IsJsSpace(pad[i])
    requires key != [] && !IsJsSpace(key[0])
    requires rest != [] && !IsJsSpace(rest[|rest| - 1])
    ensures IsKeyLine(pad + key + " " + rest, key)
  {
    var t := key + " " + rest;
    assert pad + key + " " + rest == pad + t;
    assert t[0] == key[0] && t[|t| - 1] == rest[|rest| - 1];
    TrimIndented(pad, t);
    assert t[..|key| + 1] == key + " ";
  }

  /** The position of the first key line, if any. */
  function FirstKeyLine(lines: seq<string>, key: string): (r: Option<nat>)
    ensures r.Some? ==> r.value < |lines| && IsKeyLine(lines[r.value], key)
    ensures r.Some? ==> forall j :: 0 <= j < r.value ==> !IsKeyLine(lines[j], key)
    ensures r.None? <==> forall j :: 0 <= j < |lines| ==> !IsKeyLine(lines[j], key)
  {
    if lines == [] then None
    else if IsKeyLine(lines[0], key) then Some(0)
    else match FirstKeyLine(lines[1..], key)
      case None => None
      case Some(i) => Some(i + 1)
  }

  /** `words[index]`, `undefined` past the end. */
  function WordAt(words: seq<string>, index: nat): (r: Option<string>)
    ensures r.None? <==> |words| <= index
    ensures r.Some? ==> r.value in words && r.value == words[index]
  {
    if index < |words| then Some(words[index]) else None
  }

  /**
   * The callback of `Shell.exec`: with a non-empty stdout, the `index`-th
   * word of the first line whose trimmed text starts with `key + ' '`;
   * with an empty stdout, `[false, first line of stderr]`.
   */
  function OnExecResult(stdout: string, stderr: string, key: string, index: nat): (r: Discovery)
    ensures stdout == [] ==> r.Resolved? && !r.valid && r.result.Some?
    ensures stdout == [] ==> var line := r.result.value;
      StartsWith(stderr, line) && '\n' !in line && (line == stderr || stderr[|line|] == '\n')
    ensures r == TypeError <==>
      stdout != [] && forall j :: 0 <= j < |Split(stdout, '\n')| ==> !IsKeyLine(Split(stdout, '\n')[j], key)
    ensures r.Resolved? && r.valid ==> stdout != []
    ensures r.Resolved? && r.valid && r.result.Some? ==> r.result.value != [] && ' ' !in r.result.value
  {
    if stdout != [] then
      var lines := Split(stdout, '\n');
      match FirstKeyLine(lines, key)
      case None => TypeError
      case Some(i) =>
        assert i < |Split(stdout, '\n')| && IsKeyLine(Split(stdout, '\n')[i], key);
        Resolved(true, WordAt(Words(Trim(lines[i])), index))
    else
      FirstPiece(stderr, '\n');
      Resolved(false, Some(Split(stderr, '\n')[0]))
  }

  lemma {:induction false} FirstKeyLineConcat(xs: seq<string>, ys: seq<string>, key: string)
    requires FirstKeyLine(xs, key).Some?
    ensures FirstKeyLine(xs + ys, key) == FirstKeyLine(xs, key)
  {
    if !IsKeyLine(xs[0], key) {
      assert (xs + ys)[1..] == xs[1..] + ys;
      FirstKeyLineConcat(xs[1..], ys, key);
    }
  }

  lemma NoKeyLineInEmptyOutput(key: string)
    ensures Split([], '\n') == [[]] && !IsKeyLine([], key)
  {
    assert Trim([]) == [];
  }

  /** Once stdout holds a key line, whatever output follows it is ignored. */
  lemma LaterOutputIgnored(stdout: string, more: string, stderr: string, key: string, index: nat)
    requires exists j :: 0 <= j < |Split(stdout, '\n')| && IsKeyLine(Split(stdout, '\n')[j], key)
    ensures OnExecResult(stdout + "\n" + more, stderr, key, index) == OnExecResult(stdout, stderr, key, index)
  {
    SplitConcat(stdout, more, '\n');
    FirstKeyLineConcat(Split(stdout, '\n'), Split(more, '\n'), key);
    NoKeyLineInEmptyOutput(key);
  }

  /**
   * For output made of lines `before + [line] + after`, where `line` is the
   * first key line, the result is the `index`-th word of the trimmed `line`.
   */
  lemma ResolvedFromFirstKeyLine(before: seq<string>, line: string, after: seq<string>,
                                 stderr: string, key: string, index: nat)
    requires forall j :: 0 <= j < |before| ==> '\n' !in before[j] && !IsKeyLine(before[j], key)
    requires '\n' !in line && IsKeyLine(line, key)
    requires forall j :: 0 <= j < |after| ==> '\n' !in after[j]
    ensures OnExecResult(Join(before + [line] + after, '\n'), stderr, key, index) ==
      Resolved(true, WordAt(Words(Trim(line)), index))
  {
    var lines := before + [line] + after;
    forall j | 0 <= j < |lines| ensures '\n' !in lines[j] {
      if j < |before| {
        assert lines[j] == before[j];
      } else if j > |before| {
        assert lines[j] == after[j - |before| - 1];
      }
    }
    SplitJoin(lines, '\n');
    var stdout := Join(lines, '\n');
    assert Split(stdout, '\n') == lines;
    assert lines[|before|] == line;
    forall j | 0 <= j < |before| ensures !IsKeyLine(lines[j], key) {
      assert lines[j] == before[j];
    }
    FirstKeyLineAt(lines, |before|, key);
    NoKeyLineInEmptyOutput(key);
  }

  /** A key line preceded only by other lines is the first key line. */
  lemma FirstKeyLineAt(lines: seq<string>, k: nat, key: string)
    requires k < |lines| && IsKeyLine(lines[k], key)
    requires forall j :: 0 <= j < k ==> !IsKeyLine(lines[j], key)
    ensures FirstKeyLine(lines, key) == Some(k)
  {
  }

  /**
   * When the key is a single word, word 0 of a key line is the key itself,
   * so the address sits at index 1 or later.
   */
  lemma KeyIsWordZero(line: string, key: string)
    requires key != [] && ' ' !in key
    requires IsKeyLine(line, key)
    ensures |Words(Trim(line))| >= 1 && Words(Trim(line))[0] == key
  {
    var t := Trim(line);
    var rest := t[|key| + 1..];
    assert t == key + " " + rest;
    FirstWord(key, rest);
  }
}
