/**
 * The execution cell of backend/app/sandbox.py: `Sandbox.run_code` launches one
 * locked-down container, feeds it the candidate code on standard input, waits up
 * to 30 seconds, turns the outcome into a string and always tries to remove the
 * container again.
 *
 * The Docker daemon is abstract: a class whose ghost fields record which
 * containers are live, what was launched, what each container was sent on stdin,
 * what was killed and which forced removals were attempted.  What the daemon
 * answers (an exception from `containers.run`, the wait status, the logs, a
 * failing removal) is supplied to `RunCode` as a `Script`.
 */
module Sandbox {
  import opened Text

  const DefaultImage: string := "bug-exorcist-sandbox:latest"

  const PythonCommand: string := "python3 -c \"import sys; exec(sys.stdin.read())\""
  const NodeCommand: string := "node -e \"$(cat)\""
  const GoCommand: string := "cat > main.go && go run main.go"
  const GoTestCommand: string := "go test ./..."
  const RustCommand: string := "cat > main.rs && rustc main.rs -o main && ./main"
  const CargoTestCommand: string := "cargo test"
  const NpmTestCommand: string := "npm test"
  const BashCommand: string := "/bin/bash"

  /** The language-to-command table of `run_code`. */
  const Commands: map<string, string> := map[
    "python" := PythonCommand,
    "javascript" := NodeCommand,
    "nodejs" := NodeCommand,
    "go" := GoCommand,
    "go-test" := GoTestCommand,
    "rust" := RustCommand,
    "cargo-test" := CargoTestCommand,
    "npm-test" := NpmTestCommand,
    "bash" := BashCommand
  ]

  /** `commands.get(language.lower(), commands["python"])`. */
  function CommandFor(language: string): string
  {
    if Lower(language) in Commands then Commands[Lower(language)] else Commands["python"]
  }

  /** Every key of the table is reached through its own name, in any letter case,
      and every other language runs under the python command. */
  lemma CommandTable(language: string)
    ensures Lower(language) in Commands ==> CommandFor(language) == Commands[Lower(language)]
    ensures Lower(language) !in Commands ==> CommandFor(language) == PythonCommand
    ensures CommandFor(language) == CommandFor(Lower(language))
  {
    var l := Lower(language);
    assert Lower(l) == l;
  }

  /** The mappings and the fallback that the sandbox language tests expect. */
  lemma CommandExamples()
    ensures CommandFor("python") == PythonCommand
    ensures CommandFor("javascript") == NodeCommand && CommandFor("nodejs") == NodeCommand
    ensures CommandFor("go") == GoCommand && CommandFor("go-test") == GoTestCommand
    ensures CommandFor("rust") == RustCommand && CommandFor("cargo-test") == CargoTestCommand
    ensures CommandFor("npm-test") == NpmTestCommand && CommandFor("bash") == BashCommand
    ensures CommandFor("unknown-lang") == PythonCommand
    ensures CommandFor("JavaScript") == NodeCommand
  {
    assert Lower("python") == "python";
    assert Lower("javascript") == "javascript";
    assert Lower("nodejs") == "nodejs";
    assert Lower("go") == "go";
    assert Lower("go-test") == "go-test";
    assert Lower("rust") == "rust";
    assert Lower("cargo-test") == "cargo-test";
    assert Lower("npm-test") == "npm-test";
    assert Lower("bash") == "bash";
    assert Lower("unknown-lang") == "unknown-lang";
    assert Lower("JavaScript") == "javascript";
  }

  const MemLimit: string := "512m"
  const NanoCpus: int := 500_000_000
  const TimeoutSeconds: nat := 30
  const TimeoutMessage: string := "Error: Execution timed out (30s limit)."

  /** The keyword arguments of one `containers.run` call. */
  datatype LaunchConfig = LaunchConfig(
    image: string,
    command: string,
    stdinOpen: bool,
    detach: bool,
    networkMode: string,
    memLimit: string,
    nanoCpus: int,
    capDrop: seq<string>)

  /** No network, 512 MB of memory, half a CPU, no capabilities, and stdin open. */
  predicate LockedDown(c: LaunchConfig)
  {
    c.stdinOpen && c.detach && c.networkMode == "none" && c.memLimit == MemLimit
    && c.nanoCpus == NanoCpus && c.capDrop == ["ALL"]
  }

  /** What `container.wait(timeout=30)` did: returned a status, or raised. */
  datatype WaitOutcome = Exited(statusCode: int) | WaitRaised(error: string)

  /** What `container.logs().decode('utf-8')` did. */
  datatype LogRead = Decoded(text: string) | DecodeFailed(error: string)

  /** The daemon's answers during one `run_code` call. */
  datatype Script = Script(
    runError: Option<string>,     // `containers.run` raised (no container was created)
    attachError: Option<string>,  // attaching to stdin or sending the code raised
    wait: WaitOutcome,
    killError: Option<string>,    // `container.kill()` raised after a failed wait
    logs: LogRead,
    removeFails: bool)            // `container.remove(force=True)` raised

  function SystemError(message: string): string
  {
    "System Error: " + message
  }

  function ExitError(code: int, logs: string): string
  {
    "Error (Exit Code " + IntToString(code) + "):\n" + logs
  }

  /** The string `run_code` returns for a script. */
  function RunResult(s: Script): string
  {
    if s.runError.Some? then SystemError(s.runError.value)
    else if s.attachError.Some? then SystemError(s.attachError.value)
    else match s.wait
      case WaitRaised(_) =>
        if s.killError.Some? then SystemError(s.killError.value) else TimeoutMessage
      case Exited(code) =>
        match s.logs
        case DecodeFailed(e) => SystemError(e)
        case Decoded(text) => if code != 0 then ExitError(code, text) else text
  }

  /** The one path on which `run_code` hands back the program's own output. */
  predicate CleanExit(s: Script)
  {
    s.runError.None? && s.attachError.None? && s.wait == Exited(0) && s.logs.Decoded?
  }

  lemma SystemErrorMentionsError(m: string)
    ensures Contains(SystemError(m), "Error")
  {
    assert OccursAt(SystemError(m), "Error", 7);
  }

  lemma ExitErrorMentionsError(code: int, logs: string)
    ensures Contains(ExitError(code, logs), "Error")
  {
    var head := "Error (Exit Code ";
    assert ExitError(code, logs) == head + (IntToString(code) + "):\n" + logs);
    assert OccursAt(head, "Error", 0);
    ContainsSuffixed(head, IntToString(code) + "):\n" + logs, "Error");
  }

  lemma TimeoutMentionsError()
    ensures Contains(TimeoutMessage, "Error")
  {
    var rest := ": Execution timed out (30s limit).";
    assert TimeoutMessage == "Error" + rest;
    assert OccursAt("Error", "Error", 0);
    ContainsSuffixed("Error", rest, "Error");
  }

  /** Every result other than a clean exit's logs contains "Error"; a clean exit
      returns the logs unchanged. */
  lemma FailureResultsMentionError(s: Script)
    ensures !CleanExit(s) ==> Contains(RunResult(s), "Error")
    ensures CleanExit(s) ==> RunResult(s) == s.logs.text
  {
    if s.runError.Some? {
      SystemErrorMentionsError(s.runError.value);
    } else if s.attachError.Some? {
      SystemErrorMentionsError(s.attachError.value);
    } else if s.wait.WaitRaised? {
      if s.killError.Some? {
        SystemErrorMentionsError(s.killError.value);
      } else {
        TimeoutMentionsError();
      }
    } else if s.logs.DecodeFailed? {
      SystemErrorMentionsError(s.logs.error);
    } else if s.wait.statusCode != 0 {
      ExitErrorMentionsError(s.wait.statusCode, s.logs.text);
    }
  }

  type ContainerId = nat

  /** The Docker daemon, as far as `run_code` drives it. */
  class Docker {
    var nextId: ContainerId
    ghost var live: set<ContainerId>
    ghost var launched: seq<LaunchConfig>
    ghost var stdinOf: map<ContainerId, string>
    ghost var killed: set<ContainerId>
    ghost var removeAttempts: seq<ContainerId>

    /** Every live container was handed out before. */
    ghost predicate Valid()
      reads this
    {
      forall id :: id in live ==> id < nextId
    }

    constructor ()
      ensures Valid()
      ensures live == {} && launched == [] && stdinOf == map[] && killed == {} && removeAttempts == []
    {
      nextId := 0;
      live, launched, stdinOf, killed, removeAttempts := {}, [], map[], {}, [];
    }

    /** `containers.run(..., detach=True)`: creates and starts a fresh container,
        or raises before one exists. */
    method Run(config: LaunchConfig, fault: Option<string>) returns (id: Option<ContainerId>)
      requires Valid()
      modifies this
      ensures Valid()
      ensures launched == old(launched) + [config]
      ensures fault.None? ==> id == Some(old(nextId)) && live == old(live) + {old(nextId)}
      ensures fault.None? ==> old(nextId) !in old(live)
      ensures fault.Some? ==> id == None && live == old(live)
      ensures nextId == if fault.None? then old(nextId) + 1 else old(nextId)
      ensures stdinOf == old(stdinOf) && killed == old(killed) && removeAttempts == old(removeAttempts)
    {
      launched := launched + [config];
      if fault.None? {
        id := Some(nextId);
        live := live + {nextId};
        nextId := nextId + 1;
      } else {
        id := None;
      }
    }

    /** `attach_socket(...)`, `send(code)`, `close()`. */
    method SendStdin(id: ContainerId, data: string, fault: Option<string>) returns (ok: bool)
      modifies this
      ensures ok == fault.None?
      ensures stdinOf == if ok then old(stdinOf)[id := data] else old(stdinOf)
      ensures nextId == old(nextId) && live == old(live) && launched == old(launched)
      ensures killed == old(killed) && removeAttempts == old(removeAttempts)
    {
      ok := fault.None?;
      if ok {
        stdinOf := stdinOf[id := data];
      }
    }

    /** `container.kill()`. */
    method Kill(id: ContainerId, fault: Option<string>) returns (ok: bool)
      modifies this
      ensures ok == fault.None?
      ensures killed == if ok then old(killed) + {id} else old(killed)
      ensures nextId == old(nextId) && live == old(live) && launched == old(launched)
      ensures stdinOf == old(stdinOf) && removeAttempts == old(removeAttempts)
    {
      ok := fault.None?;
      if ok {
        killed := killed + {id};
      }
    }

    /** `container.remove(force=True)`; a failure is reported, not raised. */
    method Remove(id: ContainerId, fails: bool)
      requires Valid()
      modifies this
      ensures Valid()
      ensures removeAttempts == old(removeAttempts) + [id]
      ensures live == if fails then old(live) else old(live) - {id}
      ensures nextId == old(nextId) && launched == old(launched)
      ensures stdinOf == old(stdinOf) && killed == old(killed)
    {
      removeAttempts := removeAttempts + [id];
      if !fails {
        live := live - {id};
      }
    }
  }

  class Sandbox {
    const image: string
    const client: Docker

    constructor (image: string, client: Docker)
      ensures this.image == image && this.client == client
    {
      this.image := image;
      this.client := client;
    }

    /** `Sandbox.run_code(code, language)`. */
    method RunCode(code: string, language: string, script: Script) returns (result: string)
      requires client.Valid()
      modifies client
      ensures client.Valid()
      ensures result == RunResult(script)
      // exactly one launch, with the table's command and the fixed restrictions
      ensures |client.launched| == |old(client.launched)| + 1
      ensures client.launched[..|old(client.launched)|] == old(client.launched)
      ensures var c := client.launched[|old(client.launched)|];
        c.image == image && c.command == CommandFor(language) && LockedDown(c)
      // no container: nothing to clean up
      ensures script.runError.Some? ==>
        && client.live == old(client.live) && client.removeAttempts == old(client.removeAttempts)
        && client.stdinOf == old(client.stdinOf) && client.killed == old(client.killed)
      // each created container has a fresh id, so successive runs never share one
      ensures client.nextId == old(client.nextId) + (if script.runError.None? then 1 else 0)
      ensures script.runError.None? ==> old(client.nextId) !in old(client.live)
      // a container was created: the code went to its stdin (unless sending failed),
      // a failed wait killed it, and its forced removal was attempted exactly once
      ensures script.runError.None? ==> var id := old(client.nextId);
        && client.removeAttempts == old(client.removeAttempts) + [id]
        && client.live == (if script.removeFails then old(client.live) + {id} else old(client.live))
        && client.stdinOf == (if script.attachError.None? then old(client.stdinOf)[id := code]
                              else old(client.stdinOf))
        && client.killed == (if script.attachError.None? && script.wait.WaitRaised? && script.killError.None?
                             then old(client.killed) + {id} else old(client.killed))
    {
      var command := CommandFor(language);
      var config := LaunchConfig(image, command, true, true, "none", MemLimit, NanoCpus, ["ALL"]);
      var container := client.Run(config, script.runError);
      if container.None? {
        result := SystemError(script.runError.value);
      } else {
        var id := container.value;
        var sent := client.SendStdin(id, code, script.attachError);
        if !sent {
          result := SystemError(script.attachError.value);
        } else {
          match script.wait {
            case WaitRaised(_) =>
              var killedOk := client.Kill(id, script.killError);
              if killedOk {
                result := TimeoutMessage;
              } else {
                result := SystemError(script.killError.value);
              }
            case Exited(exitCode) =>
              match script.logs {
                case DecodeFailed(e) =>
                  result := SystemError(e);
                case Decoded(logs) =>
                  if exitCode != 0 {
                    result := ExitError(exitCode, logs);
                  } else {
                    result := logs;
                  }
              }
          }
        }
        // the `finally` clause
        client.Remove(id, script.removeFails);
      }
    }
  }

  /** Two `run_code` calls on one client that both create a container use two
      different containers, and each of them gets its own forced removal. */
  method SuccessiveRunsUseDistinctContainers(sb: Sandbox, code1: string, code2: string, language: string,
                                             first: Script, second: Script)
    returns (r1: string, r2: string)
    requires sb.client.Valid()
    requires first.runError.None? && second.runError.None?
    modifies sb.client
    ensures r1 == RunResult(first) && r2 == RunResult(second)
    ensures |sb.client.removeAttempts| == |old(sb.client.removeAttempts)| + 2
    ensures var n := |old(sb.client.removeAttempts)|;
      sb.client.removeAttempts[n] != sb.client.removeAttempts[n + 1]
  {
    r1 := sb.RunCode(code1, language, first);
    r2 := sb.RunCode(code2, language, second);
  }
}
