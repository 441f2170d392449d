# camlibrobackup backup runner — Dafny model

`backup-now.go` is a small Windows-oriented command-line tool that backs up a
list of directories to a Camlistore server through the `camput` upload tool.
It reads `config.txt`, where lines `user=`, `password=` and `server=` give
the credentials and every other line names a directory; writes
`client-config.json` for `camput`; then runs `camput file <dir>` once per
directory, checks that `camput` printed a blob ref, and appends
`<dir>: <blobref>` to `log.txt`. Any failure is fatal.

This project models the logic of that program as pure functions:

- `strings.dfy` (module `Strings`): the Go `strings` operations the program
  uses — `ToLower` (ASCII only), `Replace(s, " ", "", -1)`, `TrimPrefix`,
  `TrimSuffix`.
- `config_scan.dfy` (module `ConfigScan`): the config-file scan as a left
  fold over already-split lines, producing `Config(user, password, server,
  dirs)`, with a front-to-back filter `NonDirectives` as the reference for
  the directory list and lemmas for "last directive wins" and "unset field
  stays empty".
- `credentials.dfy` (module `Credentials`): `genCamputConfig`'s validation
  and the `{auth, server}` record, with `SplitAuth`, a left inverse of the
  auth format for users without `:`, to state what the auth string
  determines.
- `blob_ref.dfy` (module `BlobRef`): the pattern `^sha1+-[a-f0-9]+$` written
  as a hand-coded character predicate `Matches`, a generative reference
  `Shape` ("sha", one or more '1', '-', one or more hex digits) proved equal
  to it, and `dirBlobRef`.
- `dispatch.dfy` (module `Dispatch`): the per-directory upload loop as a
  state machine driven by an oracle — a function from (invocation index,
  argument list) to `Exited(stdout)` or `Failed` — both as a recursive
  function and as a `while` loop, each proved to meet the reference
  description `Conforms`.
- `backup.dfy` (module `Backup`): scan, credential check and upload loop
  composed into one run.
- `results.dfy` (module `Results`): `Result`, `Option` and the fatal errors.

Behaviour follows the code in these places, where a looser reading of the
tool might suggest otherwise:

- Empty lines (and lines of spaces only) are not skipped: they become
  directories (`backup-now.go:87-88`).
- Only the ASCII space is removed before prefix matching; tabs and other
  whitespace stay, so `"\tuser=x"` is a directory.
- The whole captured output, less one trailing `"\n"`, is validated — not
  its last line — so an output with two trailing newlines is rejected.
- The pattern is `sha1+` (one or more `'1'`), so `sha111-ab` is accepted;
  Go's `$` without the multi-line flag matches only at the very end.
- The argument list is `["file", dir]`.

## Model

| member | source | states |
|---|---|---|
| Strings.Lower | backup-now.go:79 | lower-casing keeps the length, maps every character through ASCII case mapping, and leaves no upper-case letter |
| Strings.RemoveSpaces | backup-now.go:79 | the result contains no `' '` and is no longer than the input |
| Strings.RemoveSpacesKeeps | backup-now.go:79 | a character occurs in the result exactly when it occurs in the input and is not `' '`, so tabs and every other character survive |
| Strings.RemoveSpacesAppend | backup-now.go:79 | removing spaces works piecewise: from a concatenation it is the concatenation of the two results |
| Strings.LowerRemoveSpacesCommute | backup-now.go:79 | removing spaces and lower-casing commute, so the order the line is normalised in is immaterial |
| Strings.TrimPrefix | backup-now.go:82-86 | when the prefix is present, prefix + result is the input; otherwise the input comes back unchanged |
| Strings.TrimSuffix | backup-now.go:54 | when the suffix is present, result + suffix is the input; otherwise the input comes back unchanged |
| ConfigScan.Normalize | backup-now.go:79 | the prefix-tested form of a line has no spaces and no upper-case letters and is no longer than the line |
| ConfigScan.NormalizeIdempotent | backup-now.go:79-86 | normalising twice is normalising once; a directive line's normal form is classified exactly like the line |
| ConfigScan.Classify | backup-now.go:80-89 | a line is a directive exactly when its normal form starts with one of the three prefixes, and then its value is the rest of the normal form (no spaces, no upper case); otherwise it is a directory holding the original text |
| ConfigScan.Apply | backup-now.go:81-88 | a directive overwrites its own credential and nothing else; a directory line is appended to `dirs` and nothing else changes |
| ConfigScan.Scan | backup-now.go:76-90 | every stored credential is free of spaces and upper-case letters, and there are no more directories than lines |
| ConfigScan.ScanLines | backup-now.go:76-90 | the line-by-line loop computes the fold `Scan`, so its credentials are normalised values |
| ConfigScan.ScanDirs | backup-now.go:87-88 | the directory list is exactly the non-directive lines, unnormalised, in input order |
| ConfigScan.ScanDirsMembers | backup-now.go:80-88 | a line ends up in `dirs` if and only if it is a line of the input that is not a directive |
| ConfigScan.UnsetFieldStaysEmpty | backup-now.go:78-90 | a credential no line sets keeps the empty value the package variable starts with |
| ConfigScan.LastDirectiveWins | backup-now.go:78-90 | when several lines set the same credential, the value of the last one is the one kept |
| ConfigScan.KeyCaseIgnored | backup-now.go:79-82 | `USER=` followed by any space-free value is a user directive whose value is the lower-cased value: the key is matched regardless of case |
| ConfigScan.BlankLineIsDirectory | backup-now.go:79-88 | a line of nothing but spaces, the empty line included, normalises to the empty string and is a directory kept exactly as written |
| ConfigScan.TabbedLineIsDirectory | backup-now.go:79-88 | only spaces are stripped, so any line starting with a tab (a `user=` line after a tab included) is a directory kept exactly as written |
| Credentials.FormatAuth | backup-now.go:42 | the auth string is the scheme tag `userpass:`, then the user, then `:`, then the password, at those exact positions |
| Credentials.GenCamputConfig | backup-now.go:30-44 | fails with the missing-credentials error exactly when user, password or server is empty; otherwise the record's server is `server`, its auth string is `userpass:<user>:<password>` for every user (colons included), and that string splits back into (user, password) whenever the user has no `:` |
| Credentials.SplitAuth | backup-now.go:42 | as a left inverse of the auth format, splitting at the first `:` after the scheme yields a user without `:` and a password that format to exactly that string |
| Credentials.AuthRoundTrip | backup-now.go:42 | an auth string built from a user without `:` splits back into that user and password |
| Credentials.ColonInUserIsAmbiguous | backup-now.go:42 | a `:` in the user makes distinct credential pairs give the same auth string |
| BlobRef.MatchesIffShape | backup-now.go:51 | the hand-coded matcher accepts exactly the strings "sha", one or more '1', '-', one or more of `[a-f0-9]` |
| BlobRef.PatternExamples | backup-now.go:51 | `sha111-ab` and `sha1-0f` match; `sha1-`, `sha224-ab` and `sha1-AB` do not |
| BlobRef.DirBlobRef | backup-now.go:53-59 | an accepted output is a blob ref, or a blob ref plus one newline, and the ref is returned without the newline; a rejected one reports the trimmed text, which is not a blob ref |
| BlobRef.DirBlobRefAccepts | backup-now.go:53-58 | every blob ref is accepted both bare and followed by one newline, and returned unchanged |
| BlobRef.TwoNewlinesRejected | backup-now.go:54-55 | only one trailing newline is stripped, so a ref followed by two newlines is rejected |
| Dispatch.Step | backup-now.go:116-130 | one iteration issues `["file", dir]` for the next directory; with a reset buffer it succeeds exactly when that directory uploads cleanly, then logs `dir: ref` and resets the buffer, and otherwise stops with that directory's error and logs nothing |
| Dispatch.StepKeepsRunning | backup-now.go:116-130 | a clean iteration keeps the loop-head invariant: buffer empty, one command and one log entry per directory done, each as the reference says |
| Dispatch.StepHaltConforms | backup-now.go:123-128 | a fatal iteration ends the loop in a state that matches the reference description |
| Dispatch.RunFrom | backup-now.go:116-131 | from any loop-head state the loop ends in a state matching the reference description, with an empty buffer when it ends cleanly |
| Dispatch.Upload | backup-now.go:114-131 | the whole loop: commands `["file", dirs[i]]` in order; one `dirs[i]: ref_i` entry for each directory before the first bad one and none after; no error exactly when every directory uploads cleanly |
| Dispatch.UploadLoop | backup-now.go:114-131 | the imperative loop with one reused, reset output buffer meets the same reference description |
| Dispatch.ConformsUnique | backup-now.go:116-131 | the reference description determines commands, log and error uniquely |
| Dispatch.PrintedRefIsGood | backup-now.go:123-129 | a run that exits cleanly printing a blob ref and one newline uploads that directory cleanly, with that ref |
| Dispatch.AllSucceed | backup-now.go:116-131 | for any outcome meeting the reference (so for both `Upload` and `UploadLoop`): when every run prints the same ref, the log gets exactly one `dir: ref` line per directory, in order, and no error |
| Dispatch.FirstFailureStops | backup-now.go:123-128 | for any outcome meeting the reference: if directory k is the first bad one, the log has exactly k entries, the error is directory k's, and only k + 1 commands are issued |
| Dispatch.SecondOfThreeFails | backup-now.go:116-131 | for any outcome meeting the reference: with three directories, a clean first run and a failing second, the log is exactly the first directory's line, the error names the second directory, and the third is never tried |
| Backup.RunBackup | backup-now.go:76-131 | a run stops with the missing-credentials error, no client record, no command and no log line exactly when a scanned credential is empty; otherwise the record carries the scanned server and the auth string `userpass:<user>:<password>` of the scanned credentials, and the uploads match the loop's reference |
| Backup.WellFormedConfig | backup-now.go:78-90 | with exactly one line per credential, the scan yields exactly those values and the remaining lines, verbatim and in order, as directories |
| Backup.NoServerNoUpload | backup-now.go:31-33 | a config without a `server=` line fails with missing credentials before any upload command |

## Left out

- The `os.Stat` preflight checks for `config.txt` and `camput.exe`, opening the files, and `bufio.Scanner` line splitting (`\r` stripping, the token-size limit, read errors): the model starts from the already-split lines.
- The JSON encoding of the client configuration (field names, HTML escaping, trailing newline) and creating or truncating `client-config.json`: only the record value is modelled. Its failure paths (file creation, encoding) are I/O and are not modelled.
- Running `camput.exe`: `exec.Command`, the environment with `CAMLI_CONFIG_DIR` from `os.Getwd`, standard-error passthrough and the "Now running" progress line are replaced by the outcome oracle.
- `log.txt`: opening it in append mode, the date-and-time prefix that `log.LstdFlags` selects, and the newline the logger appends to every entry; the model's log is the sequence of `dir: ref` texts one run appends. The final "Upload successful" message is not modelled.
- The two fatal exits between writing the client configuration and the upload loop, failing to open `log.txt` (`backup-now.go:100-103`) and failing to read the working directory (`backup-now.go:108-111`), are I/O failures and are not modelled: the model always proceeds to the loop once the credentials are present.
- `log.Fatalf` ending the process is modelled as the run stopping with a `Fatal` error value.
- Strings.Lower: ASCII case mapping only; Go's `strings.ToLower` also maps non-ASCII letters, which is Unicode table data this model does not carry.
