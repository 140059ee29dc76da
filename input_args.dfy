/** `get_input_args`: the script's command line, read the way
    `fedmod rpm2flatpak` reads it. */
module InputArgs {
  import opened Wrappers

  /** `from_flathub`, `flathub_id`, `app_name`, `force_rewrite`. */
  datatype Args = Args(fromFlathub: bool, flathubId: Option<string>, appName: string, forceRewrite: bool)

  /** `"--flathub" == arg[0:9]`: the first nine characters are `--flathub`
      (so `--flathubX...` matches as well as `--flathub=...`). */
  predicate IsFlathubFlag(arg: string)
  {
    |arg| >= 9 && arg[..9] == "--flathub"
  }

  /** `arg[10:]`: everything after the tenth character, or "" when the
      argument is shorter. */
  function IdOf(arg: string): string
  {
    if |arg| <= 10 then "" else arg[10..]
  }

  /** Every argument, the program name included, is checked for the
      `--flathub` prefix and the last one that has it gives the id; the app
      name is the last argument; `--force` is recognised only as a whole
      argument. The interpreter always supplies the program name, so `argv`
      is never empty. */
  method GetInputArgs(argv: seq<string>) returns (r: Args)
    requires |argv| > 0
    ensures r.fromFlathub <==> exists i :: 0 <= i < |argv| && IsFlathubFlag(argv[i])
    ensures !r.fromFlathub ==> r.flathubId == None
    ensures r.fromFlathub ==>
      exists j :: 0 <= j < |argv| && IsFlathubFlag(argv[j]) && r.flathubId == Some(IdOf(argv[j])) &&
        forall k :: j < k < |argv| ==> !IsFlathubFlag(argv[k])
    ensures r.appName == argv[|argv| - 1]
    ensures r.forceRewrite <==> "--force" in argv
  {
    var fromFlathub := false;
    var flathubId: Option<string> := None;
    var i := 0;
    while i < |argv|
      invariant 0 <= i <= |argv|
      invariant fromFlathub <==> exists k :: 0 <= k < i && IsFlathubFlag(argv[k])
      invariant !fromFlathub ==> flathubId == None
      invariant fromFlathub ==>
        exists j :: 0 <= j < i && IsFlathubFlag(argv[j]) && flathubId == Some(IdOf(argv[j])) &&
          forall k :: j < k < i ==> !IsFlathubFlag(argv[k])
    {
      var arg := argv[i];
      if IsFlathubFlag(arg) {
        fromFlathub := true;
        flathubId := Some(IdOf(arg));
      }
      i := i + 1;
    }
    var appName := argv[|argv| - 1];
    var forceRewrite := "--force" in argv;
    r := Args(fromFlathub, flathubId, appName, forceRewrite);
  }
}
