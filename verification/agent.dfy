/**
 * The `sidekick_agent` command's handling of one prompt line: strip it, skip
 * it when blank, open the editor on it when it ends in `\e`, remember the
 * edited text for later turns, and cut the agent's answer at its first
 * `Action:`.  The editor and the agent are fields of `AgentEnv`.
 */
module SidekickAgent {
  import opened Wrappers
  import opened Text

  datatype AgentEnv = AgentEnv(
    edit: string -> Option<string>,   // click.edit: the edited text, or None when nothing was saved
    run: Option<string> -> string     // the agent executor's run
  )

  /** ASCII lower-casing of one character. */
  function LowerChar(c: char): (r: char)
    ensures r == 'e' <==> c == 'e' || c == 'E'
    ensures r == '\\' <==> c == '\\'
  {
    if 'A' <= c <= 'Z' then c - 'A' + 'a' else c
  }

  /** ASCII `str.lower`. */
  function Lower(s: string): (r: string)
    ensures |r| == |s|
    ensures forall k :: 0 <= k < |s| ==> r[k] == LowerChar(s[k])
  {
    if s == [] then [] else [LowerChar(s[0])] + Lower(s[1..])
  }

  /** Python's `s[-2:]`. */
  function LastTwo(s: string): string {
    if |s| >= 2 then s[|s| - 2..] else s
  }

  /** `s.lower()[-2:] == r"\e"`. */
  predicate AsksForEdit(s: string) {
    LastTwo(Lower(s)) == "\\e"
  }

  /** The edit marker is a backslash followed by `e` or `E` as the last two characters. */
  lemma AsksForEditChars(s: string)
    ensures AsksForEdit(s) <==> |s| >= 2 && s[|s| - 2] == '\\' && (s[|s| - 1] == 'e' || s[|s| - 1] == 'E')
  {
    var l := Lower(s);
    if |s| >= 2 {
      var a, b := l[|s| - 2], l[|s| - 1];
      assert LastTwo(l) == [a, b];
      assert a == LowerChar(s[|s| - 2]) && b == LowerChar(s[|s| - 1]);
      assert [a, b] == "\\e" <==> a == '\\' && b == 'e';
    } else {
      assert |LastTwo(l)| < 2;
    }
  }

  /** `response.split("Action:")[0]`: the answer up to its first `Action:`. */
  function CutAtAction(response: string): (r: string)
    ensures r <= response
    ensures !Contains(r, "Action:")
    ensures r == response || "Action:" <= response[|r|..]
  {
    var i := Find(response, "Action:");
    var r := response[..i];
    forall k | 0 <= k <= |r|
      ensures !("Action:" <= r[k..])
    {
      assert r[k..] <= response[k..];
    }
    r
  }

  /** Cutting a second time changes nothing. */
  lemma CutIdempotent(response: string)
    ensures CutAtAction(CutAtAction(response)) == CutAtAction(response)
  {
    var r := CutAtAction(response);
    var i := Find(r, "Action:");
    if i < |r| {
      assert false;
    }
  }

  /** A truthy Python value: present and not the empty string. */
  predicate Truthy(o: Option<string>) {
    o.Some? && o.value != ""
  }

  /** What one prompt line led to. */
  datatype AgentTurn =
    | Skipped
    | Answered(request: Option<string>, echo: Option<string>, response: string)

  /**
   * One pass of the agent loop: the remembered `edited_input` after the line
   * and what the line led to.  The echo is the remembered edit, printed
   * whenever it is truthy.
   */
  function AgentStep(env: AgentEnv, edited: Option<string>, raw: string): (r: (Option<string>, AgentTurn))
    ensures Strip(raw) == "" ==> r == (edited, Skipped)
    ensures r.1.Answered? ==> r.1.response == CutAtAction(env.run(r.1.request))
    ensures r.1.Answered? ==> (r.1.echo.Some? <==> Truthy(r.0)) && (Truthy(r.0) ==> r.1.echo == r.0)
  {
    var line := Strip(raw);
    if line == "" then (edited, Skipped)
    else
      var request := if AsksForEdit(line) then env.edit(line[..|line| - 2]) else Some(line);
      var remembered := if AsksForEdit(line) then request else edited;
      var echo := if Truthy(remembered) then remembered else None;
      (remembered, Answered(request, echo, CutAtAction(env.run(request))))
  }

  /**
   * A line that is neither blank nor an edit request keeps the remembered
   * edit, which is echoed again when truthy, and is sent as stripped.
   */
  lemma EditPersists(env: AgentEnv, edited: Option<string>, raw: string)
    requires Strip(raw) != "" && !AsksForEdit(Strip(raw))
    ensures var r := AgentStep(env, edited, raw);
            && r.0 == edited
            && r.1 == Answered(Some(Strip(raw)), if Truthy(edited) then edited else None,
                               CutAtAction(env.run(Some(Strip(raw)))))
  {
  }

  /**
   * An edit request opens the editor on the line minus its last two
   * characters, sends whatever comes back, and remembers it: an editor
   * closed without saving sends `None` and forgets the earlier edit.
   */
  lemma EditReplacesInput(env: AgentEnv, edited: Option<string>, raw: string)
    requires Strip(raw) != "" && AsksForEdit(Strip(raw))
    ensures var line := Strip(raw);
            var e := env.edit(line[..|line| - 2]);
            var r := AgentStep(env, edited, raw);
            && r.0 == e && r.1.Answered? && r.1.request == e
            && (e.None? ==> r.1.echo.None?)
  {
  }

  /** A blank or whitespace-only line is skipped and changes nothing. */
  lemma BlankSkipped(env: AgentEnv, edited: Option<string>, raw: string)
    requires AllSpace(raw)
    ensures AgentStep(env, edited, raw) == (edited, Skipped)
  {
    StripEmpty(raw);
  }
}
