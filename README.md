# Dev Arch installer, modelled in Dafny

This project models the `DevArchInstaller` class of the interactive Arch
Linux installer `airootfs/root/install.py`. The installer works in two phases:

- It asks questions and collects the answers in a configuration dictionary.
  It can show that dictionary with the secrets masked, save it to a JSON file
  and load it back.
- `perform_installation` then runs twelve steps in order. Each step issues
  shell commands: partitioning, formatting, mounting, pacstrap, fstab, base
  configuration, bootloader, accounts, Hyprland, development tools,
  applications and services. A command that exits non-zero raises, and the
  installation stops at that step.

The modules follow that structure:

- `PyStr` holds the Python string operations the installer relies on:
  `strip`, `split`, `rstrip`, `lower`, `int` and `str`.
- `Settings` holds the configuration: a map from keys to JSON-like values.
  It also holds `dict.get` with defaults and the masking of secrets.
- `Menus` holds the numbered menus, the lookup tables and the
  language-package collection.
- `Disks` holds the parsing of the `lsblk` output and the disk choice,
  including Python's negative indexing.
- `Commands` holds the commands issued, a `Plan` (the commands of a step,
  plus whether the step raises after them), and how a run stops at the first
  failing command.
- `Layout` holds partitioning, formatting and mounting.
- `Steps` holds steps 4 to 12.
- `Installer` holds the password prompts, the configuration written by each
  question, and the run semantics of `perform_installation`. It also holds
  the class `DevArchInstaller`, whose fields are:
  - `config`: the dictionary.
  - `log`: every command issued, in order.
  - `files`: the saved JSON files, by name.
  - `failing`: the log positions whose command exits non-zero.
  - `stdoutOf`: the captured output of a command.

The environment enters only through `failing` and `stdoutOf`. Every user
answer is a parameter of the method that asks for it. A password prompt
receives the sequence of (entry, confirmation) rounds that the user types.

Each installation step is a pure plan function. Its class method issues that
plan through `RunPlan`, which stops at the first failing command. The
installation as a whole is proved equal to a plain run of the twelve plans
(`InstallIsRun`). That run issues a prefix of the concatenated commands. It
stops exactly at the first failure. The partitions are recorded only when step
1 completes, and the root device only when step 2 completes. A step 2 that
stops in its `mkfs`, after the LUKS commands, has already set `encrypted_root`.

## Model

| member | source | states |
|---|---|---|
| PyStr.SplitJoin | airootfs/root/install.py:96 | splitting on a separator and joining back with it gives the original string |
| PyStr.SplitFieldsWords | airootfs/root/install.py:97 | whitespace splitting recovers any list of words joined by single spaces |
| PyStr.ParseIntRoundTrip | airootfs/root/install.py:256 | `int` of the decimal text of any integer, negative ones included, gives the integer back |
| PyStr.RStripCharRepeat | airootfs/root/install.py:786 | stripping trailing `G`s removes exactly the suffix appended to a number |
| PyStr.StripIdempotent | airootfs/root/install.py:266 | stripping twice is stripping once |
| Settings.InitialConfig | airootfs/root/install.py:27-31 | a fresh configuration holds exactly the desktop environment `hyprland` and animations on |
| Settings.StrOr | airootfs/root/install.py:882 | `get(k, d)` gives the default for a missing key and the stored string otherwise, or fails for a non-string |
| Settings.ListOr | airootfs/root/install.py:1017 | `get(k, [])` gives the empty list for a missing key, the stored list for a list value, and fails for any other value |
| Settings.Required | airootfs/root/install.py:769 | `config[k]` yields a string exactly when the key is present with a string value, and then it is the stored string |
| Settings.UsersMasked | airootfs/root/install.py:635-637 | the masking loop replaces every user's password with `***`, keeps names, order and the other fields, and changes no other key; a users value that is not a map of users is left as it is |
| Settings.Masked | airootfs/root/install.py:628-639 | the masked view has the same keys, hides every secret, and agrees with the configuration on every non-secret key |
| Settings.MaskTop | airootfs/root/install.py:631-639 | root and Wi-Fi passwords become `***`; the encryption password becomes `***` when set and `None` otherwise |
| Settings.MaskedIdempotent | airootfs/root/install.py:628-639 | masking a masked configuration changes nothing |
| Settings.MaskedFixed | airootfs/root/install.py:628-639 | a configuration whose secrets are already hidden is its own masked view |
| Settings.MaskedNoSecrets | airootfs/root/install.py:628-639 | a configuration with no secret key is left unchanged by masking |
| Settings.UsersMaskedIdempotent | airootfs/root/install.py:635-637 | the users masking loop applied twice equals applying it once |
| Menus.Answer | airootfs/root/install.py:266 | `input().strip() or d`: the stripped answer when it is non-empty, otherwise the default |
| Menus.MenuIndex | airootfs/root/install.py:363-364 | a menu answer selects an index exactly when it is all digits with a value from 1 to the menu length, and the index is that value minus one |
| Menus.MenuPick | airootfs/root/install.py:361-366 | a menu pick is always a listed item or the fallback, and a listed item whenever the fallback is listed |
| Menus.MenuPickNumber | airootfs/root/install.py:424-425 | the decimal number n, with any leading zeros, picks the n-th item |
| Menus.MenuPickFallback | airootfs/root/install.py:426-427 | an answer that selects no index gives the fallback |
| Menus.TimezoneFor | airootfs/root/install.py:345-352 | an invalid region gives `UTC`; a valid region number n gives the n-th region, `/`, and the city typed, `New_York` by default |
| Menus.TimezoneNumber | airootfs/root/install.py:345-350 | typing region number n, with any leading zeros, stores the n-th region with the city typed, `New_York` by default |
| Menus.FilesystemFor | airootfs/root/install.py:305-307 | only the answers 1 to 4 map to a filesystem (any other raises `KeyError`), and the result is one of the four |
| Menus.LookupOr | airootfs/root/install.py:449-451 | `dict.get` with a default: the mapped value for a known key and the default otherwise |
| Menus.CollectExact | airootfs/root/install.py:494-497 | a package is collected exactly when some token maps to a list containing it |
| Menus.LanguagesExact | airootfs/root/install.py:486-497 | a package is selected exactly when some stripped token is a known language key whose list holds it; no known token selects nothing |
| Menus.SelectLanguages | airootfs/root/install.py:494-497 | the loop over the comma-separated tokens yields exactly the language packages of the answer |
| Menus.DefaultLanguages | airootfs/root/install.py:484-497 | the default answer `1,2,5` selects Python, Node.js and C/C++ packages in that order |
| Menus.EditorsFor | airootfs/root/install.py:504-510 | `neovim` is chosen iff the answer contains `1`, `code` iff it contains `2`, and nothing else is chosen |
| Disks.DiskOfLine | airootfs/root/install.py:97-103 | a line yields a disk exactly when it has at least three fields and the third is `disk`; its path is `/dev/` plus the name |
| Disks.LsblkDisks | airootfs/root/install.py:91-106 | a failing `lsblk` gives no disks; otherwise the disks of the stripped output's lines |
| Disks.ParseLsblk | airootfs/root/install.py:96-103 | the loop over the output lines returns exactly the disks of those lines, in order |
| Disks.DisksOfExact | airootfs/root/install.py:96-103 | a disk is listed exactly when some line of the output describes it |
| Disks.DiskLineRoundTrip | airootfs/root/install.py:97-103 | a line built from a name, a size, `disk` and further words yields exactly that disk |
| Disks.NotDiskLine | airootfs/root/install.py:98 | a line whose type field is not `disk` yields nothing |
| Disks.PyIndex | airootfs/root/install.py:257 | Python indexing succeeds exactly for -len to len-1, negative indices counting from the end |
| Disks.SelectDisk | airootfs/root/install.py:256-257 | the disk answer succeeds exactly for integers from -len+1 to len, selecting `disks[n-1]` Python-style |
| Disks.SelectDiskListedOnly | airootfs/root/install.py:256-257 | whatever the answer selects is the path of a listed disk |
| Disks.SelectDiskListed | airootfs/root/install.py:256-257 | answering the menu number n selects the n-th disk |
| Disks.SelectDiskZero | airootfs/root/install.py:256-257 | answering `0` selects the last disk and `-1` the one before it |
| Disks.SelectDiskChecked | airootfs/root/install.py:256-257 | the bounded choice succeeds exactly for 1 to len and selects the n-th disk |
| Disks.SelectDiskCheckedAgrees | airootfs/root/install.py:256-257 | on every answer the bounded choice accepts, it agrees with the code as written; it rejects `0` |
| Commands.Chroot | airootfs/root/install.py:894-896 | a chroot command is a checked command whose last argument is the script |
| Commands.FirstFailureStops | airootfs/root/install.py:34-44 | every command before the first failure succeeds, and the one at it fails |
| Commands.FirstFailureAt | airootfs/root/install.py:34-44 | any position with all commands before it succeeding and itself failing (or the end) is the first failure |
| Commands.IssuedStops | airootfs/root/install.py:34-44 | the commands issued are a prefix of the plan ending at the first failure, and only its last can fail |
| Commands.FirstFailureConcat | airootfs/root/install.py:34-44 | commands issued one after another fail first in the first part, or else at its length plus the first failure of the rest |
| Commands.IssuedConcat | airootfs/root/install.py:34-44 | commands issued one after another issue the first part up to its failure, or all of it and then the rest up to its failure |
| Installer.FirstMatch | airootfs/root/install.py:323-329 | the prompt stops at the first round whose two entries agree, and at none if no round agrees |
| Installer.SecretAgreed | airootfs/root/install.py:323-329 | a secret is stored exactly when some round agrees, and it is the stripped entry of an agreeing round |
| Installer.SecretAfterMismatch | airootfs/root/install.py:323-329 | mismatched rounds before an agreeing one leave that round's entry as the secret |
| Installer.ConfirmSecret | airootfs/root/install.py:323-329 | the `while True` loop returns the secret of its rounds (also lines 391-397 and 408-413) |
| Installer.StorageSettings | airootfs/root/install.py:256-331 | the storage answers are stored: disk, scheme, filesystem, swap, encryption, home for schemes 1 and 4, btrfs options for btrfs |
| Installer.StorageSettingsKeeps | airootfs/root/install.py:256-331 | the storage questions change no key outside their own |
| Installer.UserSettings | airootfs/root/install.py:390-434 | a disabled root stores `!` and `disable_root`, otherwise the root secret; the users map holds the one main user; nothing else changes |
| Installer.InstallPlans | airootfs/root/install.py:693-743 | the installation consists of twelve plans, the first being the partitioning of the configured disk |
| Installer.RunPlansCompleted | airootfs/root/install.py:693-765 | a run completes exactly when every plan completes, and then it has issued all their commands in order |
| Installer.RunPlansFailed | airootfs/root/install.py:693-765 | when earlier plans complete and one fails, the run fails at that plan and issues nothing of the later ones |
| Installer.RunStopsAtFirstFailure | airootfs/root/install.py:693-765 | no command but the last issued fails, and the last fails exactly when the run failed |
| Installer.Then | airootfs/root/install.py:693-765 | a step after a failure does nothing; otherwise it issues its commands up to the first failure and changes the configuration only when it completes |
| Installer.InstallSteps | airootfs/root/install.py:693-743 | the three groups of steps in `perform_installation` are the twelve steps run in order, with `encrypted_root` kept when step 2 stops after setting it |
| Installer.DiskStagesSteps | airootfs/root/install.py:693-707 | steps 1 to 3 are the first three steps run in order, with what step 2 writes before it stops |
| Installer.InstallStepsPlain | airootfs/root/install.py:693-743 | leaving aside step 2's partial write, the three groups of steps are the twelve steps run in order |
| Installer.LaterStagesSkipped | airootfs/root/install.py:709-743 | once a step has raised, steps 4 to 12 change nothing |
| Installer.LaterStagesNotStep2 | airootfs/root/install.py:709-743 | steps 4 to 12 never report a stop in step 2 |
| Installer.ThenCompleted | airootfs/root/install.py:693-765 | a step that completes has issued all its commands |
| Installer.InstallReaches | airootfs/root/install.py:693-765 | the installation issues what the plain run of the twelve plans issues and stops in the same step, which is one of the twelve |
| Installer.StopReached | airootfs/root/install.py:693-765 | the configuration reached when stopping in a step is `ConfigAfter` of that step |
| Installer.ReachedNexts | airootfs/root/install.py:693-707 | the configuration reached in any step but 2 is the one steps 1 and 2 recorded; in step 2 it is the partitioned one |
| Installer.StepsRun | airootfs/root/install.py:693-765 | steps run one after another are the plain run of their plans, reaching the configuration of the last completed step |
| Installer.InstallIsRun | airootfs/root/install.py:693-765 | the installation issues what the plain run of the twelve plans issues, fails where it fails, and has recorded the keys of the steps that completed, plus `encrypted_root` when step 2 stops in its `mkfs` with an encryption password |
| Installer.RunStartsWithWipe | airootfs/root/install.py:693-772 | the first command of every installation wipes the configured disk |
| Installer.CompletedRunConfig | airootfs/root/install.py:806-860 | after the first two steps, the EFI and root partitions and the formatted root are recorded, with the mapper device when encrypting |
| Layout.RootStart | airootfs/root/install.py:781-789 | without swap, the root starts at 513MiB; with swap, the start is defined exactly when the swap size parses |
| Layout.Partitioned | airootfs/root/install.py:806-810 | partition keys: EFI is `disk1`, root is `disk2` (`disk3` with swap), swap is `disk2`, and nothing else changes |
| Layout.SwapAnswer | airootfs/root/install.py:786 | a swap answer `nG` (any number of `G`s) is read back as n |
| Layout.PartitionLayout | airootfs/root/install.py:767-803 | the `mkpart` calls are EFI, swap when configured, then root (and home) from the computed start |
| Layout.LayoutWithSwap | airootfs/root/install.py:767-810 | with n GiB of swap, the partitions are EFI 1-513MiB, swap to 513+1024n MiB, root to 100%, recorded as 1, 2 and 3 |
| Layout.LayoutWithoutSwap | airootfs/root/install.py:767-810 | without swap, the partitions are EFI and root to 100%, recorded as 1 and 2 |
| Layout.HomeCreatedNotRecorded | airootfs/root/install.py:792-810 | with a home size, a home partition is created but never recorded |
| Layout.NvmePartitionKeys | airootfs/root/install.py:806 | for `/dev/nvme0n1` the EFI key is `/dev/nvme0n11`, where the kernel names it `/dev/nvme0n1p1` |
| Layout.PartitionedFixed | airootfs/root/install.py:806-810 | the corrected keys use kernel partition names and record the home partition |
| Layout.MkfsCommand | airootfs/root/install.py:848-858 | only ext4, btrfs, xfs and f2fs have an `mkfs`, and it formats the given device |
| Layout.PrepPlan | airootfs/root/install.py:812-843 | a preparation that does not raise has a root partition, and an encryption password when encrypting |
| Layout.FormatPlan | airootfs/root/install.py:812-860 | formatting starts with EFI, swap and LUKS preparation, and stops there when that raises |
| Layout.Formatted | airootfs/root/install.py:823-860 | the formatted root is the mapper device exactly when there is an encryption password, which also sets `encrypted_root` |
| Layout.FormatFailedWrites | airootfs/root/install.py:823-846 | a formatting step that stops sets `encrypted_root` exactly when the preparation ran with an encryption password; it writes no other key, and a stop in the preparation writes nothing |
| Layout.EncryptedBeforeMkfs | airootfs/root/install.py:825-858 | with an encryption password, a failing `mkfs` after the LUKS commands stops the step with `encrypted_root` set and no root device recorded |
| Installer.FormattingAfterPrep | airootfs/root/install.py:845-860 | after a completed preparation, the completed step writes what a stop in `mkfs` leaves plus the root device |
| Layout.FormatFailedPartial | airootfs/root/install.py:845-860 | after the preparation with an encryption password, the stopped step has written all the completed step writes except `formatted_root` |
| Layout.FormatStopsInPrep | airootfs/root/install.py:812-843 | a preparation that stops stops the formatting, with the same commands issued |
| Layout.FormatAfterPrep | airootfs/root/install.py:812-860 | after a completed preparation, formatting issues the `mkfs` plan next and completes exactly when that plan does |
| Layout.OneMkfs | airootfs/root/install.py:848-858 | formatting issues exactly one `mkfs` for a known filesystem, on the device the root goes on, and none otherwise |
| Layout.MountsHomeIff | airootfs/root/install.py:862-876 | home is mounted exactly when `home_partition` is set |
| Layout.HomeNeverMounted | airootfs/root/install.py:874-876 | after partitioning and formatting as written, home is never mounted although it was created |
| Layout.HomeMountedFixed | airootfs/root/install.py:874-876 | with the corrected keys, a created home is mounted |
| Steps.BasePlan | airootfs/root/install.py:878-886 | one pacstrap of the base packages with the configured microcode (`intel-ucode` by default) |
| Steps.BaseSystemComplete | airootfs/root/install.py:898-921 | eight chroot commands, starting with the time zone link and writing the host name; a missing time zone raises at once |
| Steps.BootloaderPlan | airootfs/root/install.py:923-956 | GRUB exactly when the bootloader is `grub`, systemd-boot otherwise |
| Steps.GrubDevice | airootfs/root/install.py:927-936 | with an encrypted root, GRUB reads the root partition's UUID and writes it into the kernel command line |
| Steps.SystemdBootDevice | airootfs/root/install.py:938-956 | systemd-boot reads the PARTUUID of the formatted root device |
| Steps.RootAccountCommands | airootfs/root/install.py:961-964 | a real root password is set with chpasswd; otherwise root is locked when `disable_root` is set |
| Steps.UserCommands | airootfs/root/install.py:967-982 | useradd with the shell, chpasswd with the stored password, and the sudoers edit exactly for sudo users |
| Steps.AllUserPasswords | airootfs/root/install.py:967-973 | every user in the map gets a chpasswd with their stored password |
| Steps.UsersPlan | airootfs/root/install.py:958-982 | the root commands come first, and the step raises when the root password or the users value is malformed |
| Steps.UsersGetPasswords | airootfs/root/install.py:967-973 | the accounts step sets each user's stored password |
| Steps.HyprlandPackages | airootfs/root/install.py:984-1001 | the base packages plus the terminal, with `sddm` exactly when it is the display manager or the terminal |
| Steps.HyprlandPackagesDistinct | airootfs/root/install.py:986-996 | no package is listed twice when the terminal is not `sddm` |
| Steps.HyprlandPlan | airootfs/root/install.py:984-1010 | one pacman install first, and `sddm` enabled exactly when it is the display manager |
| Steps.DevToolsPackagesExact | airootfs/root/install.py:1012-1032 | a package is installed exactly when it is a language package, a tool, neovim when chosen, or Docker when chosen |
| Steps.DevToolsPlan | airootfs/root/install.py:1012-1036 | pacman is issued exactly when there are packages |
| Steps.DockerEnabledBeforeInstall | airootfs/root/install.py:1031-1036 | with Docker chosen, `systemctl enable docker` comes before the pacman that installs it |
| Steps.DevToolsPlanFixed | airootfs/root/install.py:1031-1036 | the corrected step installs Docker before enabling it |
| Steps.AppPackages | airootfs/root/install.py:1038-1051 | the browser, the file manager and the media apps, in that order |
| Steps.AppsPlan | airootfs/root/install.py:1038-1054 | one pacman install of those packages |
| Steps.ServicesPlan | airootfs/root/install.py:1056-1095 | NetworkManager first, ufw exactly when the firewall is on, Bluetooth exactly when it is on |
| Steps.ServicesWifi | airootfs/root/install.py:1072-1095 | with Wi-Fi, a connection file holding the password is written and made private |
| Steps.ServicesWired | airootfs/root/install.py:1071-1072 | without Wi-Fi, only the service commands are issued |
| Installer.DevArchInstaller.constructor | airootfs/root/install.py:27-32 | a fresh installer holds the initial configuration and has issued nothing |
| Installer.DevArchInstaller.RunCmd | airootfs/root/install.py:34-44 | a command is appended to the log and succeeds exactly when its position does not fail |
| Installer.DevArchInstaller.RunPlan | airootfs/root/install.py:34-44 | the commands of a plan are issued up to the first failure; the step succeeds when none fails and it does not raise |
| Installer.DevArchInstaller.GetDisks | airootfs/root/install.py:91-106 | one `lsblk` is issued, and the result is the disks of its output, or none when it fails |
| Installer.DevArchInstaller.ChooseDisk | airootfs/root/install.py:238-257 | two listings are issued; no disks or a bad answer gives nothing, otherwise the selected disk |
| Installer.DevArchInstaller.ConfigureStorage | airootfs/root/install.py:234-331 | fails exactly on no disks, a bad disk or filesystem answer, or an unconfirmed encryption password, and then leaves the configuration unchanged; otherwise it stores the storage settings |
| Installer.DevArchInstaller.StoreStorage | airootfs/root/install.py:256-331 | the configuration becomes the storage settings of the answers |
| Installer.DevArchInstaller.ConfigureSystem | airootfs/root/install.py:333-380 | host name, time zone, a listed locale and a listed key map are stored |
| Installer.DevArchInstaller.ConfigureUsers | airootfs/root/install.py:382-434 | fails exactly when a needed password is never confirmed, and then leaves the configuration unchanged; otherwise it stores the user settings |
| Installer.DevArchInstaller.ConfigureHyprland | airootfs/root/install.py:436-470 | theme, animations and display manager are stored, unknown answers giving defaults |
| Installer.DevArchInstaller.ConfigureDevelopment | airootfs/root/install.py:472-531 | languages, editors, a listed terminal, Docker and the fixed tools are stored |
| Installer.DevArchInstaller.ConfigureApplications | airootfs/root/install.py:533-558 | a listed browser, Discord, thunar and mpv are stored |
| Installer.DevArchInstaller.ConfigureSystemTools | airootfs/root/install.py:560-592 | GRUB only for `1`, Intel microcode only for `1`, firewall, Bluetooth and the AUR helper are stored |
| Installer.DevArchInstaller.SaveConfig | airootfs/root/install.py:625-645 | as written: the live configuration has its users masked and is saved with the other secrets in clear |
| Installer.DevArchInstaller.SaveConfigFixed | airootfs/root/install.py:625-645 | corrected: the masked copy is saved and hides every secret |
| Installer.DevArchInstaller.LoadConfig | airootfs/root/install.py:647-658 | a missing file gives false and changes nothing; otherwise the file's contents become the configuration |
| Installer.DevArchInstaller.DisplayConfig | airootfs/root/install.py:660-678 | as written: the summary hides every secret, but the live users' passwords become `***` |
| Installer.DevArchInstaller.DisplayConfigFixed | airootfs/root/install.py:660-678 | corrected: the summary is the masked view and the configuration is untouched |
| Installer.DevArchInstaller.PartitionDisk | airootfs/root/install.py:767-810 | the partitioning plan is issued up to the first failure, and the partition keys are recorded only if it completes |
| Installer.DevArchInstaller.FormatPartitions | airootfs/root/install.py:812-860 | the formatting plan is issued up to the first failure; `encrypted_root` is set once the preparation has run with an encryption password, and the root device is recorded only if the step completes |
| Installer.DevArchInstaller.MountPartitions | airootfs/root/install.py:862-876 | the mount plan is issued up to the first failure |
| Installer.DevArchInstaller.InstallBase | airootfs/root/install.py:878-886 | the base plan is issued up to the first failure |
| Installer.DevArchInstaller.GenerateFstab | airootfs/root/install.py:888-892 | genfstab is issued |
| Installer.DevArchInstaller.ConfigureBaseSystem | airootfs/root/install.py:898-921 | the base configuration plan is issued up to the first failure |
| Installer.DevArchInstaller.InstallBootloader | airootfs/root/install.py:923-956 | the bootloader plan is issued up to the first failure |
| Installer.DevArchInstaller.CreateUsers | airootfs/root/install.py:958-982 | the accounts plan is issued up to the first failure |
| Installer.DevArchInstaller.InstallHyprland | airootfs/root/install.py:984-1010 | the Hyprland plan is issued up to the first failure |
| Installer.DevArchInstaller.InstallDevTools | airootfs/root/install.py:1012-1036 | the development plan is issued up to the first failure |
| Installer.DevArchInstaller.InstallApplications | airootfs/root/install.py:1038-1054 | the applications plan is issued up to the first failure |
| Installer.DevArchInstaller.ConfigureServices | airootfs/root/install.py:1056-1095 | the services plan is issued up to the first failure |
| Installer.DevArchInstaller.PerformInstallation | airootfs/root/install.py:680-765 | no disk raises at the warning; a wrong phrase cancels with nothing issued; otherwise the twelve steps run until one raises |
| Installer.DevArchInstaller.DiskSteps | airootfs/root/install.py:693-707 | steps 1 to 3 run in order, each only when the one before completed |
| Installer.DevArchInstaller.SystemSteps | airootfs/root/install.py:709-723 | steps 4 to 7 run in order on an unchanged configuration |
| Installer.DevArchInstaller.DesktopSteps | airootfs/root/install.py:725-743 | steps 8 to 12 run in order on an unchanged configuration |
| Installer.DevArchInstaller.ReviewAndInstall | airootfs/root/install.py:1111-1122 | the summary is shown; unless the answer is `n`, the masked-users configuration is saved under the name typed or `dev_arch_config.json`, and on `n` no file changes; the installation runs on the masked-users configuration when the answer is `y`; a missing disk or a wrong confirmation phrase issues nothing and leaves the masked-users configuration |
| Installer.DisplayedUsersGetMask | airootfs/root/install.py:671-673 | after the summary, the accounts step sets every user's password to `***` |
| Installer.SavedSecrets | airootfs/root/install.py:641-642 | the saved file keeps the root, encryption and Wi-Fi passwords in clear, and every user password is `***` |

## Left out

- Terminal presentation is not modelled: colours, banners, `clear`, `time.sleep` and the animation helpers.
- The RAM probe of `/proc/meminfo` (lines 273-283) is not modelled. `ConfigureStorage` takes the RAM size in GiB as a parameter, `ramGb`.
- The hibernation hint (line 286) is not modelled, because it only prints a floating-point product.
- Network setup (`check_internet`, `setup_network`, `setup_ethernet`, `setup_wifi`, `setup_manual_network`, lines 108-232) is not modelled. It is I/O on the live system. Its keys are read by `ServicesPlan` as whatever the configuration holds.
- `interactive_config` (lines 594-623) is not modelled as a whole, because its root check and network prompt are I/O. Its seven question methods are each modelled.
- `main` is not modelled as a whole. `ReviewAndInstall` models its new-install branch only.
  - The load branch (lines 1124-1131) is `LoadConfig`, `DisplayConfig`, a prompt and `PerformInstallation`, each modelled on its own.
  - The edit branch (lines 1133-1137) only loads the file and prints two messages.
- `ReviewAndInstall` requires a users value that can be walked. In the new-install flow, `configure_users` always stores one.
- `subprocess` is not modelled; `installer.py` is not part of this model.
  - A checked command's failure is given by the environment's `failing` set of log positions.
  - Captured output comes from `stdoutOf`.
  - `Popen` commands (the LUKS format and open) never fail the run.
- The text written by `generate_fstab` into `/mnt/etc/fstab` is not modelled, because it is file I/O.
- Shell quoting inside chroot scripts is not modelled: scripts are kept as the strings the installer builds.
- A question that ends the program is modelled as leaving the configuration as it was, because the process exits. This covers `sys.exit`, an uncaught `ValueError` or `IndexError`, and `KeyError`.
- An endless password prompt is modelled as a failure over the rounds given: a sequence of rounds with no agreeing pair.
- `DiskSteps`, `SystemSteps` and `DesktopSteps` only split `perform_installation`'s straight-line sequence of twelve calls into three parts.
- String operations are ASCII-only. Python's `strip()` also removes Unicode white space such as U+00A0, `int()` accepts `_` separators and non-ASCII digits, and `isdigit()` is true for superscript digits, which `int()` then rejects (line 347). On such input `Answer`, `SelectDisk` and `MenuIndex` differ from the source.
- `Value` and `UserRec` cannot hold JSON numbers, arbitrary nested objects, unknown keys, or user records without a shell or groups. `LoadConfig` therefore only loads files of that shape. The defaults of `.get('shell', 'bash')` (line 969) and `.get('groups', [])` (line 976) are never used.
- A configuration value of the wrong JSON type is modelled as raising where the source would index or iterate it. Where Python would silently format such a value into a string, the model raises as well.

## Findings

The installation itself (`PerformInstallation`, `ReviewAndInstall`) follows the code as written. Each corrected member below is proved beside the code it corrects. The class exposes the corrected save and summary as methods of their own.

| source | as written | input that shows it | evidently intended | confidence | as-written member | corrected member |
|---|---|---|---|---|---|---|
| airootfs/root/install.py:664-673 | `display_config` masks a shallow copy, so the loop writes `***` into the live users' passwords | any new installation with a user password `pw`: after the summary, `create_users` sets the password to `***` | mask a deep copy and leave the configuration alone | high (not executed) | Installer.DevArchInstaller.DisplayConfig, Installer.DisplayedUsersGetMask | Installer.DevArchInstaller.DisplayConfigFixed |
| airootfs/root/install.py:641-642 | `save_config` dumps `self.config` rather than the masked copy | a configuration with root password `r`: the saved file holds `r` in clear | save the masked copy | high (not executed) | Installer.DevArchInstaller.SaveConfig, Installer.SavedSecrets | Installer.DevArchInstaller.SaveConfigFixed |
| airootfs/root/install.py:800, 874 | the home partition is created but `home_partition` is never recorded, so it is never mounted | scheme 1 (home size `50%`) | record the home partition so that it is mounted at `/mnt/home` | high (not executed) | Layout.HomeCreatedNotRecorded, Layout.HomeNeverMounted | Layout.PartitionedFixed, Layout.HomeMountedFixed |
| airootfs/root/install.py:256-257 | `disks[int(choice) - 1]` accepts `0` and negative numbers through Python's negative indexing | two disks and the answer `0`: the last disk is erased | accept only 1 to the number of disks | high (not executed) | Disks.SelectDisk, Disks.SelectDiskZero | Disks.SelectDiskChecked |
| airootfs/root/install.py:806-810 | partition paths are the disk path plus a digit | disk `/dev/nvme0n1`: the EFI key is `/dev/nvme0n11`, not `/dev/nvme0n1p1` | insert `p` after a disk name ending in a digit | high (not executed) | Layout.Partitioned, Layout.NvmePartitionKeys | Layout.PartitionedFixed |
| airootfs/root/install.py:1031-1036 | `systemctl enable docker` runs before the pacman that installs Docker | Docker chosen: the enable fails on a unit that does not exist yet, and step 10 raises | install the packages first, then enable | medium (not executed) | Steps.DevToolsPlan, Steps.DockerEnabledBeforeInstall | Steps.DevToolsPlanFixed |
