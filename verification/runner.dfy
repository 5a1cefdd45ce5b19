/**
 * How one program of the list is run: the action chosen from the
 * lower-cased extension of its path, and the message the manager shows
 * for what the launched process did. The process itself is not modelled;
 * its result is an arbitrary `ProcessResult`.
 */
module Runner {
  import opened Text

  /** Extensions run as a command of their own. */
  const DirectExtensions: set<string> := {".exe", ".msi"}

  /** The extension of driver set-up information files. */
  const DriverExtension: string := ".inf"

  /** The installer helper command line, before the path of the .inf file. */
  const HelperCommand: seq<string> := ["rundll32", "setupapi,InstallHinfSection", "DefaultInstall", "128"]

  datatype Action =
    | RunDirect(command: string)     // the path run as a command, no console window
    | RunHelper(argv: seq<string>)   // the installer helper with the path as last argument
    | Unsupported(ext: string)       // nothing is run

  /** What the launched process did, as far as the manager can observe it. */
  datatype ProcessResult = Exited(code: int) | LaunchError

  /** What the user is told after a run. */
  datatype Report =
    | Completed                       // no message
    | FailedToRun(path: string)       // "Failed to run <path>"
    | FailedToInstall(path: string)   // "Failed to install <path>"
    | UnsupportedFile(ext: string)    // "Unsupported file type: <ext>"
    | Escaped                         // an exception left the handler uncaught

  /** The action for `path`, chosen on its lower-cased extension. */
  function Dispatch(path: string): (a: Action)
    ensures a.RunDirect? <==> Lower(Extension(path)) in DirectExtensions
    ensures a.RunHelper? <==> Lower(Extension(path)) == DriverExtension
    ensures a.RunDirect? ==> a.command == path
    ensures a.RunHelper? ==> |a.argv| == 5 && a.argv[..4] == HelperCommand && a.argv[4] == path
    ensures a.Unsupported? ==> a.ext == Lower(Extension(path))
  {
    ActionFor(path, Lower(Extension(path)))
  }

  /** The action for `path` once its lower-cased extension `ext` is known. */
  function ActionFor(path: string, ext: string): (a: Action)
    ensures a.RunDirect? <==> ext in DirectExtensions
    ensures a.RunHelper? <==> ext == DriverExtension
    ensures a.RunDirect? ==> a.command == path
    ensures a.RunHelper? ==> |a.argv| == 5 && a.argv[..4] == HelperCommand && a.argv[4] == path
    ensures a.Unsupported? ==> a.ext == ext
  {
    if ext == ".exe" || ext == ".msi" then RunDirect(path)
    else if ext == ".inf" then RunHelper(HelperCommand + [path])
    else Unsupported(ext)
  }

  /**
   * The message shown after running `path`. A direct run catches every
   * exception but ignores the exit status; the helper run checks the exit
   * status but catches only that failure, so a helper that cannot be
   * launched raises past the handler.
   */
  function Outcome(path: string, result: ProcessResult): (rep: Report)
    ensures rep.Completed? ==> !Dispatch(path).Unsupported?
    ensures rep.FailedToRun? <==> Dispatch(path).RunDirect? && result.LaunchError?
    ensures rep.FailedToInstall? <==> Dispatch(path).RunHelper? && result.Exited? && result.code != 0
    ensures rep.Escaped? <==> Dispatch(path).RunHelper? && result.LaunchError?
    ensures rep.UnsupportedFile? <==> Dispatch(path).Unsupported?
    ensures rep.FailedToRun? || rep.FailedToInstall? ==> rep.path == path
    ensures rep.UnsupportedFile? ==> rep.ext == Lower(Extension(path))
  {
    match Dispatch(path)
    case RunDirect(_) =>
      if result.LaunchError? then FailedToRun(path) else Completed
    case RunHelper(_) =>
      if result.LaunchError? then Escaped
      else if result.code != 0 then FailedToInstall(path)
      else Completed
    case Unsupported(ext) => UnsupportedFile(ext)
  }

  /** A file named `stem + ext` is dispatched on `ext` alone, whatever its case. */
  lemma DispatchByName(stem: string, ext: string)
    requires ExtensionShaped(ext)
    requires stem != [] && stem[|stem| - 1] != '.' && !IsSep(stem[|stem| - 1])
    ensures Dispatch(stem + ext).RunDirect? <==> Lower(ext) in DirectExtensions
    ensures Dispatch(stem + ext).RunHelper? <==> Lower(ext) == DriverExtension
    ensures Dispatch(stem + ext).Unsupported? ==> Dispatch(stem + ext).ext == Lower(ext)
  {
    ExtensionOfName(stem, ext);
  }

  /** Upper-case spellings of the known extensions lower to the ones dispatched on. */
  lemma UpperCaseExtensionsKnown()
    ensures Lower(".EXE") in DirectExtensions && Lower(".MSI") in DirectExtensions
    ensures Lower(".INF") == DriverExtension
  {
    LowerAt(".EXE");
    LowerAt(".MSI");
    LowerAt(".INF");
    var exe, msi, inf := Lower(".EXE"), Lower(".MSI"), Lower(".INF");
    assert exe[0] == '.' && exe[1] == 'e' && exe[2] == 'x' && exe[3] == 'e';
    assert msi[0] == '.' && msi[1] == 'm' && msi[2] == 's' && msi[3] == 'i';
    assert inf[0] == '.' && inf[1] == 'i' && inf[2] == 'n' && inf[3] == 'f';
    assert exe == ".exe" && msi == ".msi" && inf == ".inf";
  }

  /** A file named `stem + ext`, `ext` lowering to ".exe" or ".msi", is run directly as a command. */
  lemma InstallerRunsDirectly(stem: string, ext: string)
    requires ExtensionShaped(ext) && Lower(ext) in DirectExtensions
    requires stem != [] && stem[|stem| - 1] != '.' && !IsSep(stem[|stem| - 1])
    ensures Dispatch(stem + ext) == RunDirect(stem + ext)
  {
    DispatchByName(stem, ext);
  }

  /** A file named `stem + ext`, `ext` lowering to ".inf", goes to the installer helper with its path last. */
  lemma DriverFileUsesHelper(stem: string, ext: string)
    requires ExtensionShaped(ext) && Lower(ext) == DriverExtension
    requires stem != [] && stem[|stem| - 1] != '.' && !IsSep(stem[|stem| - 1])
    ensures Dispatch(stem + ext) == RunHelper(HelperCommand + [stem + ext])
  {
    var p := stem + ext;
    DispatchByName(stem, ext);
    var argv := Dispatch(p).argv;
    assert argv == argv[..4] + [argv[4]];
  }

  /** A direct run whose process exits, with any status, reports nothing. */
  lemma DirectExitStatusIgnored(stem: string, ext: string, code: int)
    requires ExtensionShaped(ext) && Lower(ext) in DirectExtensions
    requires stem != [] && stem[|stem| - 1] != '.' && !IsSep(stem[|stem| - 1])
    ensures Outcome(stem + ext, Exited(code)) == Completed
  {
    InstallerRunsDirectly(stem, ext);
  }
}
