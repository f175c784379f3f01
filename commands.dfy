/**
  The desired-state document the control plane serves, and the window-manager
  commands `configure` derives from one display rule. A command is kept as a
  datatype so its kind and its target can be talked about; `Render` gives the
  exact text the client sends over the IPC connection.
 */
module Commands {
  import opened Wrappers
  import opened Decimal

  /** A requested video mode: `{width, height, refresh}`. */
  datatype Mode = Mode(width: int, height: int, refresh: int)

  /**
    One entry of `displays`. `mode` is `None` for JSON `null`; `url` is `None`
    for JSON `null`, and the empty string is kept as it is (Python treats both
    as false).
   */
  datatype DisplayRule = DisplayRule(name: string, rotation: string, mode: Option<Mode>, url: Option<string>)

  /** The document `{displays: [rule, ...]}`; the rules are applied in list order. */
  datatype Config = Config(displays: seq<DisplayRule>)

  /** `if mode:` in `configure`. */
  predicate SetsMode(rule: DisplayRule) {
    rule.mode.Some?
  }

  /** `if dis["url"]:` in `configure`: a missing (null) or empty URL launches nothing. */
  predicate LaunchesBrowser(rule: DisplayRule) {
    rule.url.Some? && rule.url.value != ""
  }

  const ProfileRoot: string := "/tmp/chromium_userdata"
  const BrowserFlags: string := "--noerrdialogs --enable-features=OverlayScrollbar --disable-restore-session-state"

  /** The window-manager commands the configurator issues. */
  datatype Command =
    | Transform(output: string, rotation: string)
    | SetMode(output: string, width: int, height: int, refresh: int)
    | BindWorkspace(workspace: string, output: string)
    | FocusWorkspace(workspace: string)
    | HideCursor
    | AssignByTitle(workspace: string)
    | LaunchBrowser(workspace: string, url: string)

  /** The position a command kind takes within one rule's block. */
  function Rank(c: Command): nat {
    match c
    case Transform(_, _) => 0
    case SetMode(_, _, _, _) => 1
    case BindWorkspace(_, _) => 2
    case FocusWorkspace(_) => 3
    case HideCursor => 4
    case AssignByTitle(_) => 5
    case LaunchBrowser(_, _) => 6
  }

  /** The output or workspace a command is about; the cursor command has none. */
  function Subject(c: Command): string
    requires !c.HideCursor?
  {
    match c
    case Transform(o, _) => o
    case SetMode(o, _, _, _) => o
    case BindWorkspace(w, _) => w
    case FocusWorkspace(w) => w
    case AssignByTitle(w) => w
    case LaunchBrowser(w, _) => w
  }

  /** The commands for one display rule, in the order the loop body issues them. */
  function RuleCommands(rule: DisplayRule): (cs: seq<Command>)
    ensures |cs| == 5 + (if SetsMode(rule) then 1 else 0) + (if LaunchesBrowser(rule) then 1 else 0)
  {
    var n := rule.name;
    var modePart := match rule.mode
      case Some(m) => [SetMode(n, m.width, m.height, m.refresh)]
      case None => [];
    var launchPart := if LaunchesBrowser(rule) then [LaunchBrowser(n, rule.url.value)] else [];
    [Transform(n, rule.rotation)] + modePart
      + [BindWorkspace(n, n), FocusWorkspace(n), HideCursor, AssignByTitle(n)]
      + launchPart
  }

  /**
    What one rule's block is, independently of how it is assembled: the kinds
    appear in strictly increasing rank (transform, mode, bind, switch, cursor,
    assign, launch), the mode and launch commands appear exactly when the
    rule's fields are truthy, and the cursor command appears once.
   */
  lemma RuleCommandsShape(rule: DisplayRule)
    ensures var cs := RuleCommands(rule);
      && |cs| == 5 + (if SetsMode(rule) then 1 else 0) + (if LaunchesBrowser(rule) then 1 else 0)
      && (forall i, j :: 0 <= i < j < |cs| ==> Rank(cs[i]) < Rank(cs[j]))
      && cs[0] == Transform(rule.name, rule.rotation)
      && ((exists i :: 0 <= i < |cs| && cs[i].SetMode?) <==> SetsMode(rule))
      && (SetsMode(rule) ==>
          cs[1] == SetMode(rule.name, rule.mode.value.width, rule.mode.value.height, rule.mode.value.refresh))
      && ((exists i :: 0 <= i < |cs| && cs[i].LaunchBrowser?) <==> LaunchesBrowser(rule))
      && (LaunchesBrowser(rule) ==> cs[|cs| - 1] == LaunchBrowser(rule.name, rule.url.value))
      && (!LaunchesBrowser(rule) ==> cs[|cs| - 1] == AssignByTitle(rule.name))
      && (forall i :: 0 <= i < |cs| && cs[i].HideCursor? ==> i == |cs| - 2 - (if LaunchesBrowser(rule) then 1 else 0))
      && cs[|cs| - 2 - (if LaunchesBrowser(rule) then 1 else 0)] == HideCursor
  {
    var cs := RuleCommands(rule);
    var extra := if LaunchesBrowser(rule) then 1 else 0;
    assert forall i :: 0 <= i < |cs| ==> (cs[i].SetMode? <==> SetsMode(rule) && i == 1);
    assert forall i :: 0 <= i < |cs| ==> (cs[i].LaunchBrowser? <==> LaunchesBrowser(rule) && i == |cs| - 1);
    assert SetsMode(rule) ==> cs[1].SetMode?;
    assert LaunchesBrowser(rule) ==> cs[|cs| - 1].LaunchBrowser?;
    assert cs[|cs| - 1 - extra] == AssignByTitle(rule.name);
    assert cs[|cs| - 2 - extra] == HideCursor;
  }

  /**
    Every command of a rule's block except the cursor command is about the
    rule's own output: the workspace named after the output is bound to that
    same output.
   */
  lemma RuleCommandsTargets(rule: DisplayRule)
    ensures var cs := RuleCommands(rule);
      && (forall i :: 0 <= i < |cs| && !cs[i].HideCursor? ==> Subject(cs[i]) == rule.name)
      && (forall i :: 0 <= i < |cs| && cs[i].BindWorkspace? ==> cs[i] == BindWorkspace(rule.name, rule.name))
  {
  }

  /** `str(refresh)[:1]`: the refresh rate cut to the first character of its decimal form. */
  function RefreshToken(refresh: int): (token: string)
    ensures |token| == 1
    ensures token[0] == IntToDecimal(refresh)[0]
  {
    SlicePrefix(IntToDecimal(refresh), 1)
  }

  /** The `<width>x<height>@<refresh>Hz` token of a mode command. */
  function ModeToken(width: int, height: int, refresh: int): (token: string)
    ensures |token| == |IntToDecimal(width)| + |IntToDecimal(height)| + 5
    ensures token[|token| - 3] == IntToDecimal(refresh)[0]
  {
    IntToDecimal(width) + "x" + IntToDecimal(height) + "@" + RefreshToken(refresh) + "Hz"
  }

  /** The directory `--user-data-dir` points at for the browser on output `name`. */
  function ProfileDir(name: string): string {
    ProfileRoot + "/" + name
  }

  /** The window-manager command word each kind of command starts with. */
  function Keyword(c: Command): string {
    match c
    case Transform(_, _) => "output "
    case SetMode(_, _, _, _) => "output "
    case BindWorkspace(_, _) => "workspace "
    case FocusWorkspace(_) => "workspace "
    case HideCursor => "seat "
    case AssignByTitle(_) => "assign "
    case LaunchBrowser(_, _) => "exec "
  }

  /** The exact command text sent to the window manager. */
  function Render(c: Command): string {
    match c
    case Transform(o, r) => "output " + o + " transform " + r
    case SetMode(o, w, h, r) => "output " + o + " mode " + ModeToken(w, h, r)
    case BindWorkspace(w, o) => "workspace \"" + w + "\" output " + o
    case FocusWorkspace(w) => "workspace \"" + w + "\""
    case HideCursor => "seat seat0 hide_cursor 3000"
    case AssignByTitle(w) => "assign [title='^Chromium.*" + w + ".*'] \"" + w + "\""
    case LaunchBrowser(w, u) =>
      ("exec chromium " + BrowserFlags + " ") + ("--user-data-dir=" + ProfileDir(w)) + (" --kiosk " + u)
  }

  /** Every command text starts with the command word of its kind. */
  lemma RenderStartsWithKeyword(c: Command)
    ensures |Keyword(c)| <= |Render(c)| && Render(c)[..|Keyword(c)|] == Keyword(c)
  {
    var k := Keyword(c);
    match c
    case Transform(o, r) =>
      Extend(k, "output ", o); Extend(k, "output " + o, " transform "); Extend(k, "output " + o + " transform ", r);
    case SetMode(o, w, h, r) =>
      Extend(k, "output ", o); Extend(k, "output " + o, " mode "); Extend(k, "output " + o + " mode ", ModeToken(w, h, r));
    case BindWorkspace(w, o) =>
      var t := "workspace \"";
      Extend(k, t, w); Extend(k, t + w, "\" output "); Extend(k, t + w + "\" output ", o);
    case FocusWorkspace(w) =>
      var t := "workspace \"";
      Extend(k, t, w); Extend(k, t + w, "\"");
    case HideCursor =>
    case AssignByTitle(w) =>
      var t := "assign [title='^Chromium.*";
      Extend(k, t, w); Extend(k, t + w, ".*'] \""); Extend(k, t + w + ".*'] \"", w);
      Extend(k, t + w + ".*'] \"" + w, "\"");
    case LaunchBrowser(w, u) =>
      var t := "exec chromium ";
      Extend(k, t, BrowserFlags); Extend(k, t + BrowserFlags, " ");
      var t2 := t + BrowserFlags + " ";
      Extend(k, t2, "--user-data-dir=" + ProfileDir(w)); Extend(k, t2 + ("--user-data-dir=" + ProfileDir(w)), " --kiosk " + u);
  }

  /** Appending text keeps a prefix. */
  lemma Extend(k: string, s: string, t: string)
    requires |k| <= |s| && s[..|k|] == k
    ensures |k| <= |s + t| && (s + t)[..|k|] == k
  {
    assert (s + t)[..|k|] == s[..|k|];
  }

  /** The rule's commands as the text the loop body sends, one string per IPC command. */
  function RuleScript(rule: DisplayRule): seq<string> {
    RenderAll(RuleCommands(rule))
  }

  /** The text of each command, in order. */
  function RenderAll(cs: seq<Command>): seq<string> {
    seq(|cs|, i requires 0 <= i < |cs| => Render(cs[i]))
  }

  /**
    The refresh part of a mode command is a single character: the leading digit
    of a non-negative rate, or the minus sign of a negative one. So 60 is sent
    as "6".
   */
  lemma RefreshTokenIsLeadingDigit(refresh: int)
    ensures |RefreshToken(refresh)| == 1
    ensures refresh >= 0 ==> RefreshToken(refresh) == [DigitChar(LeadingDigit(refresh))]
    ensures refresh < 0 ==> RefreshToken(refresh) == "-"
  {
    if refresh >= 0 {
      FirstCharIsLeadingDigit(refresh);
      var s := NatToDecimal(refresh);
      assert s[..1] == [s[0]];
    }
  }

  /**
    The truncation loses information: two non-negative refresh rates with the
    same leading digit (60 and 6, 50 and 59) give the same mode command, and
    rates with different leading digits give different ones.
   */
  lemma ModeCommandSeesOnlyLeadingDigit(output: string, width: int, height: int, r1: nat, r2: nat)
    ensures Render(SetMode(output, width, height, r1)) == Render(SetMode(output, width, height, r2))
        <==> LeadingDigit(r1) == LeadingDigit(r2)
  {
    RefreshTokenIsLeadingDigit(r1);
    RefreshTokenIsLeadingDigit(r2);
    var size := IntToDecimal(width) + "x" + IntToDecimal(height) + "@";
    SameFrame(size, RefreshToken(r1), RefreshToken(r2), "Hz");
    SameFrame("output " + output + " mode ", ModeToken(width, height, r1), ModeToken(width, height, r2), "");
    assert ModeToken(width, height, r1) + "" == ModeToken(width, height, r1);
    assert ModeToken(width, height, r2) + "" == ModeToken(width, height, r2);
  }

  /** Equal-length middles inside the same frame: the results agree exactly when the middles do. */
  lemma SameFrame(pre: string, a: string, b: string, post: string)
    requires |a| == |b|
    ensures pre + a + post == pre + b + post <==> a == b
  {
    if pre + a + post == pre + b + post {
      assert a == (pre + a + post)[|pre|..|pre| + |a|];
      assert b == (pre + b + post)[|pre|..|pre| + |b|];
    }
  }

  /** The mode requested as 1920x1080 at 60 Hz is sent as `1920x1080@6Hz`. */
  lemma ModeTokenExample()
    ensures ModeToken(1920, 1080, 60) == "1920x1080@6Hz"
  {
    assert NatToDecimal(1920) == "1920" by {
      assert NatToDecimal(19) == "19";
      assert NatToDecimal(192) == "192";
    }
    assert NatToDecimal(1080) == "1080" by {
      assert NatToDecimal(10) == "10";
      assert NatToDecimal(108) == "108";
    }
    assert NatToDecimal(60) == "60";
  }

  /**
    The browser launch isolates each output's profile in its own directory
    under the scratch directory `/tmp/chromium_userdata`, named after the
    output, and ends with the kiosk URL.
   */
  lemma LaunchCommandShape(name: string, url: string)
    ensures var t := Render(LaunchBrowser(name, url));
      var dirFlag := "--user-data-dir=" + ProfileDir(name);
      var tail := " --kiosk " + url;
      && |t| >= |tail| && t[|t| - |tail|..] == tail
      && exists k :: OccursAt(t, dirFlag, k)
  {
    Middle("exec chromium " + BrowserFlags + " ", "--user-data-dir=" + ProfileDir(name), " --kiosk " + url);
  }

  /** The middle piece of a three-piece string stands right after the first, and the last piece ends it. */
  lemma Middle(a: string, b: string, c: string)
    ensures OccursAt(a + b + c, b, |a|)
    ensures (a + b + c)[|a + b + c| - |c|..] == c
  {
    assert (a + b + c)[|a|..|a| + |b|] == b;
  }

  /** `sub` stands in `s` starting at position `k`. */
  predicate OccursAt(s: string, sub: string, k: int) {
    0 <= k <= |s| - |sub| && s[k..k + |sub|] == sub
  }

  /**
    The single-display scenario: a rule with a URL and no mode yields no mode
    command, the transform, the workspace bind and switch, the cursor and
    assignment commands, and one browser launch for that URL, in that order.
   */
  lemma ScenarioCommands()
    ensures RuleCommands(ScenarioRule()) == [
      Transform("HDMI-1", "normal"), BindWorkspace("HDMI-1", "HDMI-1"), FocusWorkspace("HDMI-1"),
      HideCursor, AssignByTitle("HDMI-1"), LaunchBrowser("HDMI-1", "https://example.com")]
  {
  }

  function ScenarioRule(): DisplayRule {
    DisplayRule("HDMI-1", "normal", None, Some("https://example.com"))
  }

  /** The scenario's script is the text of its six commands. */
  lemma ScenarioScriptRenders()
    ensures |RuleScript(ScenarioRule())| == 6
    ensures RuleScript(ScenarioRule())[0] == Render(Transform("HDMI-1", "normal"))
    ensures RuleScript(ScenarioRule())[1] == Render(BindWorkspace("HDMI-1", "HDMI-1"))
    ensures RuleScript(ScenarioRule())[2] == Render(FocusWorkspace("HDMI-1"))
    ensures RuleScript(ScenarioRule())[3] == Render(HideCursor)
    ensures RuleScript(ScenarioRule())[4] == Render(AssignByTitle("HDMI-1"))
    ensures RuleScript(ScenarioRule())[5] == Render(LaunchBrowser("HDMI-1", "https://example.com"))
  {
    ScenarioCommands();
  }

  /** The text of the scenario's transform command, as the window manager receives it. */
  lemma ScenarioScript()
    ensures |RuleScript(ScenarioRule())| == 6
    ensures RuleScript(ScenarioRule())[0] == "output HDMI-1 transform normal"
  {
    ScenarioScriptRenders();
    assert Render(Transform("HDMI-1", "normal")) == "output HDMI-1 transform normal";
  }

  /** The text of the scenario's workspace bind and switch commands. */
  lemma ScenarioWorkspaceTexts()
    ensures |RuleScript(ScenarioRule())| == 6
    ensures RuleScript(ScenarioRule())[1] == "workspace \"HDMI-1\" output HDMI-1"
    ensures RuleScript(ScenarioRule())[2] == "workspace \"HDMI-1\""
  {
    ScenarioScriptRenders();
    assert Render(BindWorkspace("HDMI-1", "HDMI-1")) == "workspace \"HDMI-1\" output HDMI-1";
    assert Render(FocusWorkspace("HDMI-1")) == "workspace \"HDMI-1\"";
  }

  /** The text of the scenario's remaining commands; the launch text is the one `LaunchCommandShape` describes. */
  lemma ScenarioScriptTail()
    ensures |RuleScript(ScenarioRule())| == 6
    ensures RuleScript(ScenarioRule())[3] == "seat seat0 hide_cursor 3000"
    ensures RuleScript(ScenarioRule())[4] == "assign [title='^Chromium.*HDMI-1.*'] \"HDMI-1\""
    ensures RuleScript(ScenarioRule())[5] == Render(LaunchBrowser("HDMI-1", "https://example.com"))
  {
    ScenarioScriptRenders();
    assert Render(HideCursor) == "seat seat0 hide_cursor 3000";
    assert Render(AssignByTitle("HDMI-1")) == "assign [title='^Chromium.*HDMI-1.*'] \"HDMI-1\"";
  }
}
