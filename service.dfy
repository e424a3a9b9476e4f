/**
 * The service-management commands (monitor.py:52-56, 183-211): whether the
 * systemd unit is installed is read off the unit listing, and start, stop
 * and uninstall issue their commands only when it is.
 */
module Service {

  /** `f'{service_name}.service'`, the unit name looked for in the listing. */
  const UnitName: string := "sht30_logger.service"

  /** The installed unit file. */
  const UnitPath: string := "/etc/systemd/system/sht30_logger.service"

  /** A command handed to the operating system. */
  datatype Invocation =
    | Exec(argv: seq<string>)  // `subprocess.run([...])`
    | Shell(line: string)      // `os.system(...)`

  /** The guarded service commands of the command line. */
  datatype Command = Start | Stop | Uninstall

  /** `t` stands in `s` at position `i`. */
  ghost predicate PieceAt(t: string, s: string, i: int)
  {
    0 <= i && i + |t| <= |s| && s[i..i + |t|] == t
  }

  /** `t` occurs in `s` as a contiguous piece. */
  ghost predicate Occurs(t: string, s: string)
  {
    exists i :: PieceAt(t, s, i)
  }

  /** Occurrences in the tail of `s` are occurrences in `s`, one position further. */
  lemma PieceInTail(t: string, s: string, i: int)
    requires |s| > 0 && i >= 0
    ensures PieceAt(t, s[1..], i) <==> PieceAt(t, s, i + 1)
  {
    if 0 <= i && i + |t| <= |s| - 1 {
      assert s[1..][i..i + |t|] == s[i + 1..i + 1 + |t|];
    }
  }

  /** Python's `t in s` on strings: a substring search, left to right. */
  function Contains(s: string, t: string): (found: bool)
    ensures found <==> Occurs(t, s)
    decreases |s|
  {
    if |t| > |s| then
      assert forall i :: !PieceAt(t, s, i);
      false
    else if t == s[..|t|] then
      assert PieceAt(t, s, 0);
      true
    else
      var rest := Contains(s[1..], t);
      if rest then
        assert Occurs(t, s) by {
          var i :| PieceAt(t, s[1..], i);
          PieceInTail(t, s, i);
        }
        true
      else
        assert !Occurs(t, s) by {
          forall i | 0 < i ensures !PieceAt(t, s, i) {
            PieceInTail(t, s, i - 1);
          }
          assert !PieceAt(t, s, 0);
        }
        false
  }

  /**
   * `is_service_installed`: the unit name appears somewhere in the output
   * of `systemctl list-units --type=service --all`.
   */
  function IsServiceInstalled(listing: string): (installed: bool)
    ensures installed <==> Occurs(UnitName, listing)
  {
    Contains(listing, UnitName)
  }

  /** The commands a command issues once the unit is known to be installed. */
  function CommandsFor(command: Command): seq<Invocation>
  {
    match command
    case Start => [Exec(["sudo", "systemctl", "start", UnitName])]
    case Stop => [Exec(["sudo", "systemctl", "stop", UnitName])]
    case Uninstall => [
      Shell("sudo systemctl stop " + UnitName),
      Shell("sudo systemctl disable " + UnitName),
      Shell("sudo rm " + UnitPath),
      Shell("sudo systemctl daemon-reload")
    ]
  }

  /**
   * `start_service`, `stop_service` and `remove_service`: with the unit
   * installed, the command's invocations; without it, none (only a message
   * under `--verbose`).
   */
  function ServiceCommands(listing: string, command: Command): (issued: seq<Invocation>)
    ensures issued != [] <==> Occurs(UnitName, listing)
    ensures issued != [] ==> issued == CommandsFor(command)
  {
    if IsServiceInstalled(listing) then CommandsFor(command) else []
  }

  /**
   * The test is a substring match, not a unit-name match: any listing that
   * contains the name somewhere, even inside a longer word, counts as
   * installed.
   */
  lemma AnyMentionCounts(before: string, after: string)
    ensures IsServiceInstalled(before + UnitName + after)
  {
    var listing := before + UnitName + after;
    assert listing[|before|..|before| + |UnitName|] == UnitName;
    assert PieceAt(UnitName, listing, |before|);
  }

  /** A listing without the unit name: no guarded command (`Start`, `Stop` or `Uninstall`) issues anything. */
  lemma NotInstalledIssuesNothing(listing: string, command: Command)
    requires !Occurs(UnitName, listing)
    ensures !IsServiceInstalled(listing)
    ensures ServiceCommands(listing, command) == []
  {
  }
}
