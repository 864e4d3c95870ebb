/** Classifying the desktop session from environment variables
    (`keyhint/context.py`).  The environment is a dictionary; the Gnome and
    KDE version probes, which run external programs, are parameters. */
module Desktop {
  import opened Wrappers
  import opened Text
  import opened Dict

  type Env = Dict<string, string>

  const NotDetected := "not detected"
  const Deprecated := "this-is-deprecated"
  const GnomeSessionKey := "GNOME_DESKTOP_SESSION_ID"

  /** `os.environ.get(key, "")`. */
  function EnvGet(env: Env, key: string): (r: string)
    ensures Get(env, key).None? ==> r == ""
    ensures Get(env, key).Some? ==> r == Get(env, key).value
  {
    Get(env, key).GetOr("")
  }

  /** `is_using_wayland`: the variable is present, whatever its value. */
  function IsUsingWayland(env: Env): (r: bool)
    ensures r <==> Get(env, "WAYLAND_DISPLAY").Some?
  {
    HasKey(env, "WAYLAND_DISPLAY")
  }

  lemma WaylandEvenWhenEmpty()
    ensures IsUsingWayland([("WAYLAND_DISPLAY", "")])
    ensures !IsUsingWayland([("XDG_SESSION_TYPE", "wayland")])
  {
    assert Keys([("WAYLAND_DISPLAY", "")]) == ["WAYLAND_DISPLAY"];
    assert Keys([("XDG_SESSION_TYPE", "wayland")]) == ["XDG_SESSION_TYPE"];
  }

  /** The Gnome session id, with the placeholder older sessions set treated
      as empty. */
  function GnomeSession(env: Env): (r: string)
    ensures r != Deprecated
    ensures EnvGet(env, GnomeSessionKey) != Deprecated ==> r == EnvGet(env, GnomeSessionKey)
  {
    var id := EnvGet(env, GnomeSessionKey);
    if id == Deprecated then "" else id
  }

  /** The five variables `get_desktop_environment` reads: three lower-cased,
      the Gnome id with its placeholder removed, the Hyprland signature as
      is; a missing variable reads as empty. */
  datatype Vars = Vars(kdeFullSession: string, xdgCurrentDesktop: string, desktopSession: string,
                       gnomeSessionId: string, hyprlandSignature: string)

  function ReadVars(env: Env): (r: Vars)
    ensures r.xdgCurrentDesktop == Lower(EnvGet(env, "XDG_CURRENT_DESKTOP"))
    ensures r.gnomeSessionId != Deprecated
  {
    Vars(Lower(EnvGet(env, "KDE_FULL_SESSION")), Lower(EnvGet(env, "XDG_CURRENT_DESKTOP")),
         Lower(EnvGet(env, "DESKTOP_SESSION")), GnomeSession(env), EnvGet(env, "HYPRLAND_INSTANCE_SIGNATURE"))
  }

  /** The six tests, in the order they are made.  The lower-cased variables
      are searched by substring; the Gnome id, the KDE flag and the Hyprland
      signature count when non-empty. */
  predicate IsGnome(v: Vars) {
    v.gnomeSessionId != "" || Contains(v.xdgCurrentDesktop, "gnome")
  }

  predicate IsKde(v: Vars) {
    v.kdeFullSession != "" || Contains(v.desktopSession, "kde-plasma")
  }

  predicate IsSway(v: Vars) {
    Contains(v.xdgCurrentDesktop, "sway") || Contains(v.desktopSession, "sway")
  }

  predicate IsUnity(v: Vars) {
    Contains(v.xdgCurrentDesktop, "unity")
  }

  predicate IsHyprland(v: Vars) {
    v.hyprlandSignature != ""
  }

  predicate IsAwesome(v: Vars) {
    Contains(v.xdgCurrentDesktop, "awesome")
  }

  /** `get_desktop_environment` as written: six independent tests, each of
      which overwrites the answer when it holds. */
  function DesktopEnvironment(env: Env, gnomeVersion: string, kdeVersion: string): (r: string)
    ensures r == DesktopByPriority(ReadVars(env), gnomeVersion, kdeVersion)
  {
    var v := ReadVars(env);
    var de := NotDetected;
    var de := if IsGnome(v) then "Gnome v" + gnomeVersion else de;
    var de := if IsKde(v) then "KDE v" + kdeVersion else de;
    var de := if IsSway(v) then "Sway" else de;
    var de := if IsUnity(v) then "Unity" else de;
    var de := if IsHyprland(v) then "Hyprland" else de;
    var de := if IsAwesome(v) then "Awesome" else de;
    de
  }

  /** The same classification read as a priority list: Awesome over
      Hyprland over Unity over Sway over KDE over Gnome. */
  function DesktopByPriority(v: Vars, gnomeVersion: string, kdeVersion: string): string {
    if IsAwesome(v) then "Awesome"
    else if IsHyprland(v) then "Hyprland"
    else if IsUnity(v) then "Unity"
    else if IsSway(v) then "Sway"
    else if IsKde(v) then "KDE v" + kdeVersion
    else if IsGnome(v) then "Gnome v" + gnomeVersion
    else NotDetected
  }

  /** "not detected" exactly when no test holds. */
  lemma NotDetectedIff(env: Env, gnomeVersion: string, kdeVersion: string)
    ensures var v := ReadVars(env);
            DesktopEnvironment(env, gnomeVersion, kdeVersion) == NotDetected <==>
              !IsGnome(v) && !IsKde(v) && !IsSway(v) && !IsUnity(v) && !IsHyprland(v) && !IsAwesome(v)
  {
    var v := ReadVars(env);
    var r := DesktopEnvironment(env, gnomeVersion, kdeVersion);
    if IsGnome(v) && !IsKde(v) && !IsSway(v) && !IsUnity(v) && !IsHyprland(v) && !IsAwesome(v) {
      assert r == "Gnome v" + gnomeVersion;
      assert r[0] == 'G' != NotDetected[0];
    }
    if IsKde(v) && !IsSway(v) && !IsUnity(v) && !IsHyprland(v) && !IsAwesome(v) {
      assert r == "KDE v" + kdeVersion;
      assert r[0] == 'K' != NotDetected[0];
    }
  }

  /** A Gnome session id of "this-is-deprecated" counts as no id at all:
      two environments that differ only in having that placeholder or no
      such variable are classified alike. */
  lemma DeprecatedGnomeIdIgnored(e1: Env, e2: Env, gnomeVersion: string, kdeVersion: string)
    requires Get(e1, GnomeSessionKey) == Some(Deprecated) && Get(e2, GnomeSessionKey).None?
    requires forall k :: k != GnomeSessionKey ==> Get(e1, k) == Get(e2, k)
    ensures DesktopEnvironment(e1, gnomeVersion, kdeVersion) == DesktopEnvironment(e2, gnomeVersion, kdeVersion)
  {
    assert ReadVars(e1) == ReadVars(e2) by {
      assert GnomeSession(e1) == GnomeSession(e2) == "";
      assert Get(e1, "XDG_CURRENT_DESKTOP") == Get(e2, "XDG_CURRENT_DESKTOP");
      assert Get(e1, "DESKTOP_SESSION") == Get(e2, "DESKTOP_SESSION");
      assert Get(e1, "KDE_FULL_SESSION") == Get(e2, "KDE_FULL_SESSION");
      assert Get(e1, "HYPRLAND_INSTANCE_SIGNATURE") == Get(e2, "HYPRLAND_INSTANCE_SIGNATURE");
    }
  }

  /** The session variables are compared case-insensitively: an upper-case
      desktop name is recognised. */
  lemma UpperCaseDesktop(gnomeVersion: string, kdeVersion: string)
    ensures DesktopEnvironment([("XDG_CURRENT_DESKTOP", "SWAY")], gnomeVersion, kdeVersion) == "Sway"
  {
    SwayVars([("XDG_CURRENT_DESKTOP", "SWAY")]);
    SwayFacts(Vars("", "sway", "", "", ""));
  }

  lemma SwayVars(env: Env)
    requires env == [("XDG_CURRENT_DESKTOP", "SWAY")]
    ensures ReadVars(env) == Vars("", "sway", "", "", "")
  {
    assert Keys(env) == ["XDG_CURRENT_DESKTOP"];
    assert EnvGet(env, "XDG_CURRENT_DESKTOP") == "SWAY";
    assert EnvGet(env, "HYPRLAND_INSTANCE_SIGNATURE") == "";
    assert EnvGet(env, GnomeSessionKey) == "";
  }

  lemma SwayFacts(v: Vars)
    requires v == Vars("", "sway", "", "", "")
    ensures IsSway(v) && !IsUnity(v) && !IsHyprland(v) && !IsAwesome(v)
  {
    assert OccursAt("sway", "sway", 0);
    NotContainsChar("sway", "unity", 0);
    NotContainsChar("sway", "awesome", 2);
  }
}
