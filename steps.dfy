/** Installation steps 4 to 12: the base system, fstab, system settings, the
    boot loader, accounts, and the package and service steps. Each is a plan
    of commands computed from the configuration (and, for the boot loader,
    from what `blkid` prints). */
module Steps {
  import opened Options
  import opened PyStr
  import opened Settings
  import opened Commands

  /** `install_base`: one pacstrap with the microcode package chosen (Intel
      when none was). */
  function BasePlan(c: Config): (p: Plan)
    ensures p.raises <==> StrOr(c, Microcode, "intel-ucode").None?
    ensures !p.raises ==>
      (|p.cmds| == 1 && p.cmds[0].Exec? && |p.cmds[0].argv| == 11 && p.cmds[0].argv[0] == "pacstrap"
       && StrOr(c, Microcode, "intel-ucode").value in p.cmds[0].argv)
  {
    match StrOr(c, Microcode, "intel-ucode")
    case None => Plan([], true)
    case Some(mc) =>
      Plan([Exec(["pacstrap", "/mnt", "base", "base-devel", "linux", "linux-firmware", mc,
                  "networkmanager", "sudo", "nano", "vim"])], false)
  }

  /** `generate_fstab`: genfstab, whose output is written to the new
      system's fstab. */
  function FstabPlan(): Plan {
    Plan([Exec(["genfstab", "-U", "/mnt"])], false)
  }

  /** The `/etc/hosts` text for a host name. */
  function HostsFile(h: string): string {
    HostsHead + h + ".localdomain " + h
  }

  /** The loopback lines of `/etc/hosts`, up to the host's own address. */
  const HostsHead: string := "127.0.0.1    localhost\n::1          localhost\n127.0.1.1    "

  /** `configure_base_system`: time zone, locale, key map, host name and
      hosts file. Each key is read just before the commands that use it, so
      a missing key stops the step after the commands before it. */
  function BaseSystemPlan(c: Config): Plan {
    match Required(c, Timezone)
    case None => Plan([], true)
    case Some(tz) =>
      var a := [Chroot("ln -sf /usr/share/zoneinfo/" + tz + " /etc/localtime"), Chroot("hwclock --systohc")];
      match Required(c, Locale)
      case None => Plan(a, true)
      case Some(loc) =>
        var b := a + [Chroot("echo '" + loc + " UTF-8' >> /etc/locale.gen"), Chroot("locale-gen"),
                      Chroot("echo 'LANG=" + loc + "' > /etc/locale.conf")];
        match Required(c, Keymap)
        case None => Plan(b, true)
        case Some(km) =>
          var d := b + [Chroot("echo 'KEYMAP=" + km + "' > /etc/vconsole.conf")];
          match Required(c, Hostname)
          case None => Plan(d, true)
          case Some(h) =>
            Plan(d + [Chroot("echo '" + h + "' > /etc/hostname"), Chroot("echo '" + HostsFile(h) + "' > /etc/hosts")], false)
  }

  /** With all four settings present the step issues its eight commands in
      order, the host name going to `/etc/hostname`; without the time zone
      it issues none. */
  lemma BaseSystemComplete(c: Config, tz: string, loc: string, km: string, h: string)
    requires Required(c, Timezone) == Some(tz) && Required(c, Locale) == Some(loc)
    requires Required(c, Keymap) == Some(km) && Required(c, Hostname) == Some(h)
    ensures var p := BaseSystemPlan(c);
      !p.raises && |p.cmds| == 8
      && p.cmds[0] == Chroot("ln -sf /usr/share/zoneinfo/" + tz + " /etc/localtime")
      && p.cmds[6] == Chroot("echo '" + h + "' > /etc/hostname")
    ensures Timezone !in c ==> BaseSystemPlan(c) == Plan([], true)
  {
  }

  /** The kernel command line edit for an encrypted root under GRUB. */
  function GrubCryptSed(uuid: string): string {
    GrubSedHead + uuid + GrubSedTail
  }

  const GrubSedHead: string := "sed -i 's/GRUB_CMDLINE_LINUX=\"\"/GRUB_CMDLINE_LINUX=\"cryptdevice=UUID="
  const GrubSedTail: string := ":cryptroot root=\\/dev\\/mapper\\/cryptroot\"/' /etc/default/grub"

  /** The systemd-boot loader entry. */
  function LoaderEntry(microcodeImage: string, root: string): string {
    EntryHead + microcodeImage + EntryMiddle + root + " rw\n"
  }

  const EntryFile: string := "' > /boot/loader/entries/arch.conf"
  const EntryHead: string := "title   Arch Linux\nlinux   /vmlinuz-linux\ninitrd  /"
  const EntryMiddle: string := "\ninitrd  /initramfs-linux.img\noptions root="

  /** The fixed commands of the two boot loaders. */
  const GrubPackages: Command := Chroot("pacman -S --noconfirm grub efibootmgr")
  const GrubInstall: Command := Chroot("grub-install --target=x86_64-efi --efi-directory=/boot --bootloader-id=GRUB")
  const GrubMkconfig: Command := Chroot("grub-mkconfig -o /boot/grub/grub.cfg")
  const LoaderDefault: Command := Chroot("echo 'default arch.conf' > /boot/loader/loader.conf")
  const LoaderTimeout: Command := Chroot("echo 'timeout 3' >> /boot/loader/loader.conf")

  /** GRUB: install, and with an encrypted root point the kernel at the
      LUKS container by the UUID of the raw root partition. */
  function GrubPlan(c: Config, out: Command -> string): Plan {
    var a := [GrubPackages, GrubInstall];
    var mk := GrubMkconfig;
    if !Enabled(c, EncryptedRoot) then Plan(a + [mk], false)
    else
      match Required(c, RootPartition)
      case None => Plan(a, true)
      case Some(rp) =>
        var blk := Exec(["blkid", "-s", "UUID", "-o", "value", rp]);
        Plan(a + [blk, Chroot(GrubCryptSed(Strip(out(blk)))), mk], false)
  }

  /** systemd-boot: install, and write an entry whose root is the PARTUUID
      of the formatted root device. */
  function SystemdBootPlan(c: Config, out: Command -> string): Plan {
    var a := [Chroot("bootctl install")];
    match StrOr(c, Microcode, "intel-ucode")
    case None => Plan(a, true)
    case Some(mc) =>
      match Required(c, FormattedRoot)
      case None => Plan(a, true)
      case Some(fr) =>
        var blk := Exec(["blkid", "-s", "PARTUUID", "-o", "value", fr]);
        var entry := LoaderEntry(mc + ".img", "PARTUUID=" + Strip(out(blk)));
        Plan(a + [blk, Chroot("echo '" + entry + EntryFile), LoaderDefault, LoaderTimeout], false)
  }

  /** `install_bootloader`: GRUB only when `bootloader` is exactly `grub`;
      systemd-boot for any other value and when the key is missing. */
  function BootloaderPlan(c: Config, out: Command -> string): (p: Plan)
    ensures Is(c, Bootloader, "grub") ==> p == GrubPlan(c, out)
    ensures !Is(c, Bootloader, "grub") ==> p == SystemdBootPlan(c, out)
  {
    if Is(c, Bootloader, "grub") then GrubPlan(c, out) else SystemdBootPlan(c, out)
  }

  /** With an encrypted root, GRUB asks `blkid` for the UUID of the raw
      root partition and writes the UUID it printed into the kernel command
      line. */
  lemma GrubDevice(c: Config, out: Command -> string, rp: string)
    requires Enabled(c, EncryptedRoot) && Required(c, RootPartition) == Some(rp)
    ensures var p := GrubPlan(c, out);
      var blk := Exec(["blkid", "-s", "UUID", "-o", "value", rp]);
      !p.raises && |p.cmds| == 5 && p.cmds[2] == blk && p.cmds[3] == Chroot(GrubCryptSed(Strip(out(blk))))
  {
  }

  /** systemd-boot asks `blkid` for the PARTUUID of the formatted root
      device (the mapper device when encrypted). */
  lemma SystemdBootDevice(c: Config, out: Command -> string, fr: string)
    requires Required(c, FormattedRoot) == Some(fr) && StrOr(c, Microcode, "intel-ucode").Some?
    ensures var p := SystemdBootPlan(c, out);
      !p.raises && |p.cmds| == 5 && p.cmds[1] == Exec(["blkid", "-s", "PARTUUID", "-o", "value", fr])
  {
  }

  /** The sudoers edit that enables the wheel group. */
  const SudoersSed: string := "sed " + "-i 's/# %wheel ALL=(ALL:ALL) ALL/%wheel ALL=(ALL:ALL) ALL/' /etc/sudoers"

  /** The password command for one account. */
  function Chpasswd(name: string, password: string): Command {
    Chroot("echo '" + name + ":" + password + "' | chpasswd")
  }

  /** The root account: its password set unless it is `!`, otherwise the
      account locked when `disable_root` is set. `None` when it raises. */
  function RootAccountCommands(c: Config): (r: Option<seq<Command>>)
    ensures r.None? <==> Enabled(c, RootPassword) && Required(c, RootPassword).None?
    ensures forall pw :: Is(c, RootPassword, pw) && pw != "" && pw != "!" ==>
      r == Some([Chpasswd("root", pw)])
    ensures r.Some? && !(Enabled(c, RootPassword) && Required(c, RootPassword).value != "!") ==>
      r.value == if Enabled(c, DisableRoot) then [Chroot("passwd -l root")] else []
  {
    if Enabled(c, RootPassword) && Required(c, RootPassword).None? then None
    else if Enabled(c, RootPassword) && Required(c, RootPassword).value != "!" then
      Some([Chpasswd("root", Required(c, RootPassword).value)])
    else if Enabled(c, DisableRoot) then Some([Chroot("passwd -l root")])
    else Some([])
  }

  /** The commands for one account: create it with its shell, set its
      password, add it to its groups (if any), and enable sudo for wheel. */
  function UserCommands(e: UserEntry): (cmds: seq<Command>)
    ensures 2 <= |cmds| <= 4
    ensures cmds[0] == Chroot("useradd -m -s /bin/" + e.rec.shell + " " + e.name)
    ensures cmds[1] == Chpasswd(e.name, e.rec.password)
    ensures Chroot(SudoersSed) in cmds <==> e.rec.sudo
  {
    var add := Chroot("useradd -m -s /bin/" + e.rec.shell + " " + e.name);
    var pw := Chpasswd(e.name, e.rec.password);
    var groups := Chroot("usermod -aG " + Join(e.rec.groups, ",") + " " + e.name);
    assert add.argv[4][0] == 'u' && pw.argv[4][0] == 'e' && groups.argv[4][0] == 'u' && Chroot(SudoersSed).argv[4] == SudoersSed && SudoersSed[0] == 's';
    [add, pw]
    + (if e.rec.groups != [] then [groups] else [])
    + (if e.rec.sudo then [Chroot(SudoersSed)] else [])
  }

  /** The accounts' commands, account after account in insertion order. */
  function AllUserCommands(es: seq<UserEntry>): seq<Command> {
    if es == [] then [] else UserCommands(es[0]) + AllUserCommands(es[1..])
  }

  /** Every account gets its password command with the password stored for
      it. */
  lemma {:induction false} AllUserPasswords(es: seq<UserEntry>, i: nat)
    requires i < |es|
    ensures Chpasswd(es[i].name, es[i].rec.password) in AllUserCommands(es)
  {
    if i == 0 {
      assert UserCommands(es[0])[1] == Chpasswd(es[0].name, es[0].rec.password);
    } else {
      AllUserPasswords(es[1..], i - 1);
    }
  }

  /** `create_users`: the root account, then each account of `users` (none
      when the key is missing; a `users` value that is not a map raises). */
  function UsersPlan(c: Config): (p: Plan)
    ensures RootAccountCommands(c).None? ==> p == Plan([], true)
    ensures RootAccountCommands(c).Some? ==> RootAccountCommands(c).value <= p.cmds
    ensures p.raises <==> RootAccountCommands(c).None? || (Users in c && !c[Users].UserMap?)
  {
    match RootAccountCommands(c)
    case None => Plan([], true)
    case Some(r) =>
      if Users !in c then Plan(r, false)
      else if c[Users].UserMap? then Plan(r + AllUserCommands(c[Users].entries), false)
      else Plan(r, true)
  }

  /** Each stored account gets its password set to the stored password. */
  lemma UsersGetPasswords(c: Config, i: nat)
    requires RootAccountCommands(c).Some?
    requires Users in c && c[Users].UserMap? && i < |c[Users].entries|
    ensures var e := c[Users].entries[i];
      Chpasswd(e.name, e.rec.password) in UsersPlan(c).cmds
  {
    AllUserPasswords(c[Users].entries, i);
  }

  /** The packages `install_hyprland` always installs. */
  const HyprlandBase: seq<string> := [
    "hyprland", "waybar", "wofi", "kitty", "swaybg",
    "swaylock", "mako", "grim", "slurp", "wl-clipboard",
    "xdg-desktop-portal-hyprland", "polkit-kde-agent",
    "qt5-wayland", "qt6-wayland"]

  const SddmEnable: Command := Chroot("systemctl enable sddm")

  /** SDDM is installed and enabled when the display manager is `sddm`, the
      default. */
  predicate WantsSddm(c: Config) {
    DisplayManager !in c || c[DisplayManager] == Str("sddm")
  }

  /** The Hyprland package list: the fixed packages, the terminal unless it
      is already among them, and SDDM when chosen. */
  function HyprlandPackages(c: Config): (r: Option<seq<string>>)
    ensures r.Some? <==> StrOr(c, Terminal, "kitty").Some?
    ensures r.Some? ==> HyprlandBase <= r.value
    ensures r.Some? ==> StrOr(c, Terminal, "kitty").value in r.value
    ensures r.Some? ==> ("sddm" in r.value <==> WantsSddm(c) || StrOr(c, Terminal, "kitty").value == "sddm")
  {
    match StrOr(c, Terminal, "kitty")
    case None => None
    case Some(t) =>
      var p := if t in HyprlandBase then HyprlandBase else HyprlandBase + [t];
      Some(p + (if WantsSddm(c) then ["sddm"] else []))
  }

  /** No package is listed twice when the terminal is not `sddm`. */
  lemma HyprlandPackagesDistinct(c: Config)
    requires StrOr(c, Terminal, "kitty").Some? && StrOr(c, Terminal, "kitty").value != "sddm"
    ensures var p := HyprlandPackages(c).value;
      forall i, j :: 0 <= i < j < |p| ==> p[i] != p[j]
  {
    var t := StrOr(c, Terminal, "kitty").value;
    var p := HyprlandPackages(c).value;
    var b := if t in HyprlandBase then HyprlandBase else HyprlandBase + [t];
    HyprlandBaseDistinct();
    assert "sddm" !in b;
    assert forall i, j :: 0 <= i < j < |b| ==> b[i] != b[j];
  }

  /** The fixed Hyprland packages are pairwise different and do not include
      `sddm`. */
  lemma HyprlandBaseDistinct()
    ensures forall i, j :: 0 <= i < j < |HyprlandBase| ==> HyprlandBase[i] != HyprlandBase[j]
    ensures "sddm" !in HyprlandBase
  {
  }

  /** `install_hyprland`: one pacman for the package list, then enabling
      SDDM when it was chosen. */
  function HyprlandPlan(c: Config): (p: Plan)
    ensures p.raises <==> HyprlandPackages(c).None?
    ensures !p.raises ==> p.cmds != [] && p.cmds[0] == Pacman(HyprlandPackages(c).value)
    ensures !p.raises ==> (SddmEnable in p.cmds <==> WantsSddm(c))
  {
    match HyprlandPackages(c)
    case None => Plan([], true)
    case Some(pkgs) => Plan([Pacman(pkgs)] + (if WantsSddm(c) then [SddmEnable] else []), false)
  }

  const DockerEnable: Command := Chroot("systemctl enable docker")

  /** The development packages: the languages, neovim when chosen as an
      editor (VS Code is left for later), the tools, and Docker when chosen. */
  function DevToolsPackages(c: Config): Option<seq<string>> {
    match (ListOr(c, DevLanguages), ListOr(c, Editors), ListOr(c, DevTools))
    case (Some(langs), Some(eds), Some(tools)) =>
      Some(langs + (if "neovim" in eds then ["neovim"] else []) + tools
           + (if Enabled(c, InstallDocker) then ["docker", "docker-compose"] else []))
    case _ => None
  }

  /** A package is installed exactly when it is a chosen language package, a
      tool, neovim chosen as an editor, or Docker when chosen; VS Code is
      never installed by this step on account of the editor choice. */
  lemma DevToolsPackagesExact(c: Config, x: string)
    requires DevToolsPackages(c).Some?
    ensures var langs := ListOr(c, DevLanguages).value;
      var eds := ListOr(c, Editors).value;
      var tools := ListOr(c, DevTools).value;
      x in DevToolsPackages(c).value <==>
        x in langs || x in tools || (x == "neovim" && "neovim" in eds)
        || (Enabled(c, InstallDocker) && x in ["docker", "docker-compose"])
  {
  }

  /** `install_dev_tools` as written: `systemctl enable docker` is issued
      before the pacman command that installs Docker. */
  function DevToolsPlan(c: Config): (p: Plan)
    ensures p.raises <==> DevToolsPackages(c).None?
    ensures !p.raises ==> (Pacman(DevToolsPackages(c).value) in p.cmds <==> DevToolsPackages(c).value != [])
  {
    match DevToolsPackages(c)
    case None => Plan([], true)
    case Some(pkgs) =>
      Plan((if Enabled(c, InstallDocker) then [DockerEnable] else [])
           + (if pkgs != [] then [Pacman(pkgs)] else []), false)
  }

  /** With Docker chosen, the service is enabled before its package is
      installed: the first command enables `docker`, the second installs it. */
  lemma DockerEnabledBeforeInstall(c: Config)
    requires DevToolsPackages(c).Some? && Enabled(c, InstallDocker)
    ensures var p := DevToolsPlan(c);
      |p.cmds| == 2 && p.cmds[0] == DockerEnable
      && p.cmds[1] == Pacman(DevToolsPackages(c).value) && "docker" in DevToolsPackages(c).value
  {
  }

  /** The development step with Docker enabled after its package is
      installed. */
  function DevToolsPlanFixed(c: Config): (p: Plan)
    ensures p.raises <==> DevToolsPackages(c).None?
    ensures !p.raises && Enabled(c, InstallDocker) ==>
      exists i, j :: 0 <= i < j < |p.cmds| && p.cmds[i] == Pacman(DevToolsPackages(c).value)
        && "docker" in DevToolsPackages(c).value && p.cmds[j] == DockerEnable
  {
    match DevToolsPackages(c)
    case None => Plan([], true)
    case Some(pkgs) =>
      var install := if pkgs != [] then [Pacman(pkgs)] else [];
      var p := Plan(install + (if Enabled(c, InstallDocker) then [DockerEnable] else []), false);
      assert Enabled(c, InstallDocker) ==> p.cmds[0] == Pacman(pkgs) && p.cmds[1] == DockerEnable;
      p
  }

  /** The application packages: the browser (Firefox by default), the file
      manager (Thunar by default) and the media players. */
  function AppPackages(c: Config): (r: Option<seq<string>>)
    ensures r.Some? ==> |r.value| >= 2
    ensures r.Some? <==> StrOr(c, Browser, "firefox").Some? && StrOr(c, FileManager, "thunar").Some? && ListOr(c, MediaApps).Some?
    ensures r.Some? ==> r.value == [StrOr(c, Browser, "firefox").value, StrOr(c, FileManager, "thunar").value] + ListOr(c, MediaApps).value
  {
    match (StrOr(c, Browser, "firefox"), StrOr(c, FileManager, "thunar"), ListOr(c, MediaApps))
    case (Some(b), Some(fm), Some(media)) => Some([b, fm] + media)
    case _ => None
  }

  /** `install_applications`: the list is never empty, so there is always
      exactly one pacman command. */
  function AppsPlan(c: Config): (p: Plan)
    ensures p.raises <==> AppPackages(c).None?
    ensures !p.raises ==> p.cmds == [Pacman(AppPackages(c).value)]
  {
    match AppPackages(c)
    case None => Plan([], true)
    case Some(pkgs) => Plan([Pacman(pkgs)], false)
  }

  /** The NetworkManager connection file for the Wi-Fi network used during
      installation, with its password in the clear. */
  function WifiConnection(ssid: string, password: string): string {
    ConnectionHead + ssid + ConnectionWifi + ssid + ConnectionSecurity + password + ConnectionIp
  }

  const ConnectionHead: string := "[connection]\nid="
  const ConnectionWifi: string := "\ntype=wifi\n\n[wifi]\nssid="
  const ConnectionSecurity: string := "\n\n[wifi-security]\nkey-mgmt=wpa-psk\npsk="
  const ConnectionIp: string := "\n\n[ipv4]\nmethod=auto\n\n[ipv6]\nmethod=auto\n"

  /** Where NetworkManager keeps its connection files. */
  const ConnectionsDir: string := "/etc/NetworkManager/system-connections/"

  /** The service commands of `configure_services`. */
  const NetworkManagerEnable: Command := Chroot("systemctl enable NetworkManager")
  const UfwInstall: Command := Chroot("pacman -S --noconfirm ufw")
  const UfwEnable: Command := Chroot("systemctl enable ufw")
  const BluezInstall: Command := Chroot("pacman -S --noconfirm bluez bluez-utils")
  const BluetoothEnable: Command := Chroot("systemctl enable bluetooth")

  /** `configure_services`: NetworkManager always, the firewall and
      Bluetooth when chosen, and the Wi-Fi connection when the installer
      was set up over Wi-Fi. */
  function ServicesPlan(c: Config): (p: Plan)
    ensures p.cmds != [] && p.cmds[0] == NetworkManagerEnable
    ensures UfwEnable in p.cmds <==> Enabled(c, EnableFirewall)
    ensures BluetoothEnable in p.cmds <==> Enabled(c, EnableBluetooth)
  {
    var a := ServiceCommands(c);
    var w := WifiSetup(c);
    match w
    case Some(cmds) => Plan(a + cmds, false)
    case None => Plan(a, WifiWanted(c))
  }

  /** The installer was set up over Wi-Fi with a network name. */
  predicate WifiWanted(c: Config) {
    Is(c, NetworkType, "wifi") && Enabled(c, WifiSsid)
  }

  /** The commands that store the Wi-Fi connection: none without Wi-Fi, and
      none (the step raises) when the name or password is not a string. */
  function WifiSetup(c: Config): (w: Option<seq<Command>>)
    ensures w.Some? ==> UfwEnable !in w.value && BluetoothEnable !in w.value
  {
    if WifiWanted(c) then
      match (Required(c, WifiSsid), StrOr(c, WifiPassword, ""))
      case (Some(ssid), Some(pw)) => Some(WifiCommands(ssid, pw))
      case _ => None
    else None
  }

  /** The service commands of `configure_services`, before the Wi-Fi
      connection. */
  function ServiceCommands(c: Config): (a: seq<Command>)
    ensures a != [] && a[0] == NetworkManagerEnable
    ensures UfwEnable in a <==> Enabled(c, EnableFirewall)
    ensures BluetoothEnable in a <==> Enabled(c, EnableBluetooth)
  {
    [NetworkManagerEnable]
      + (if Enabled(c, EnableFirewall) then [UfwInstall, UfwEnable] else [])
      + (if Enabled(c, EnableBluetooth) then [BluezInstall, BluetoothEnable] else [])
  }

  /** The two commands that write the Wi-Fi connection file and make it
      private; neither enables a service. */
  function WifiCommands(ssid: string, pw: string): (w: seq<Command>)
    ensures |w| == 2
    ensures UfwEnable !in w && BluetoothEnable !in w
  {
    var path := ConnectionsDir + ssid + ".nmconnection";
    var write := "echo '" + WifiConnection(ssid, pw) + "' > " + path;
    var protect := "chmod 600 " + path;
    assert write[0] == 'e' && protect[0] == 'c';
    [Chroot(write), Chroot(protect)]
  }

  /** After a Wi-Fi installation the network is written as a connection
      file named after the network, holding its password, and made private;
      otherwise the step issues only the service commands. */
  lemma ServicesWifi(c: Config, ssid: string, pw: string)
    requires Is(c, NetworkType, "wifi") && Is(c, WifiSsid, ssid) && ssid != "" && Is(c, WifiPassword, pw)
    ensures var p := ServicesPlan(c);
      var path := ConnectionsDir + ssid + ".nmconnection";
      !p.raises && |p.cmds| >= 3
      && p.cmds[|p.cmds| - 2] == Chroot("echo '" + WifiConnection(ssid, pw) + "' > " + path)
      && p.cmds[|p.cmds| - 1] == Chroot("chmod 600 " + path)
  {
    assert Truthy(Str(ssid)) by { assert |ssid| > 0; }
    assert WifiSetup(c) == Some(WifiCommands(ssid, pw));
  }

  /** Without Wi-Fi the step never raises and issues one command, plus two
      for each of the firewall and Bluetooth when chosen. */
  lemma ServicesWired(c: Config)
    requires !Is(c, NetworkType, "wifi")
    ensures var p := ServicesPlan(c);
      !p.raises && |p.cmds| == 1 + (if Enabled(c, EnableFirewall) then 2 else 0) + (if Enabled(c, EnableBluetooth) then 2 else 0)
  {
  }
}
