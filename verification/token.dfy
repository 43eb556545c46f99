/**
 Looking up the web password hash in the appliance's setup file, with the file
 already read into its lines (`readlines` keeps each line's newline), and the
 choice the command line makes between that lookup and an explicit `--auth`.
 */
module Token {
  import opened Base
  import opened Text
  import Auth

  const PasswordKey := "WEBPASSWORD"

  /** `line.startswith('WEBPASSWORD')`. */
  predicate IsPasswordLine(line: string) {
    StartsWith(line, PasswordKey)
  }

  /**
   `line.split('=')[1]`: the text after the first `=`, up to the next `=` or the
   end of the line. `None` stands for the `IndexError` of a line without `=`.
   */
  function SecondField(line: string): (r: Option<string>)
    ensures r.Some? <==> '=' in line
    ensures r.Some? ==>
              var start := IndexOf(line, '=') + 1;
              var end := start + |r.value|;
              end <= |line| && line[start..end] == r.value && '=' !in r.value
              && (end == |line| || line[end] == '=')
  {
    if '=' in line then
      var rest := line[IndexOf(line, '=') + 1..];
      Some(if '=' in rest then rest[..IndexOf(rest, '=')] else rest)
    else None
  }

  /** `SecondField` is the second piece of Python's `line.split('=')`. */
  lemma SecondFieldIsSplit(line: string)
    requires '=' in line
    ensures |Split(line, '=')| >= 2 && SecondField(line) == Some(Split(line, '=')[1])
  {
    var k := IndexOf(line, '=');
    assert Split(line, '=')[1..] == Split(line[k+1..], '=');
  }

  /** What the lookup gives: the token, `None`, or the exception it lets escape. */
  datatype Lookup = Found(token: string) | NotFound | Raised(error: Error)

  /** No line of `lines` starts with `WEBPASSWORD`. */
  predicate NoPasswordLine(lines: seq<string>) {
    forall i :: 0 <= i < |lines| ==> !IsPasswordLine(lines[i])
  }

  /** Line `i` is the first of `lines` that starts with `WEBPASSWORD`. */
  predicate FirstPasswordAt(lines: seq<string>, i: nat) {
    i < |lines| && IsPasswordLine(lines[i]) && forall j :: 0 <= j < i ==> !IsPasswordLine(lines[j])
  }

  /** Position of the first password line, if any. */
  function FirstPasswordLine(lines: seq<string>): (k: Option<nat>)
    ensures k.None? <==> NoPasswordLine(lines)
    ensures k.Some? ==> FirstPasswordAt(lines, k.value)
  {
    if |lines| == 0 then None
    else if IsPasswordLine(lines[0]) then Some(0)
    else
      match FirstPasswordLine(lines[1..])
      case None => None
      case Some(k) => Some(k + 1)
  }

  /**
   The loop over the lines: it returns at the first password line, with that
   line's second `=`-field or the `IndexError` of a line without `=`.
   */
  function ScanLines(lines: seq<string>): (r: Lookup)
    ensures r.NotFound? <==> NoPasswordLine(lines)
    ensures r.Found? ==>
              exists i: nat :: FirstPasswordAt(lines, i) && SecondField(lines[i]) == Some(r.token)
    ensures r.Raised? ==>
              r.error.IndexError? && FirstPasswordAt(lines, r.error.at) && '=' !in lines[r.error.at]
  {
    match FirstPasswordLine(lines)
    case None => NotFound
    case Some(i) =>
      match SecondField(lines[i])
      case Some(token) => Found(token)
      case None => Raised(IndexError(i))
  }

  /** Once a password line has been met, the lines after it make no difference. */
  lemma {:induction false} LaterLinesIgnored(lines: seq<string>, more: seq<string>)
    requires exists i :: 0 <= i < |lines| && IsPasswordLine(lines[i])
    ensures ScanLines(lines + more) == ScanLines(lines)
    decreases |lines|
  {
    if !IsPasswordLine(lines[0]) {
      assert (lines + more)[1..] == lines[1..] + more;
      var i :| 0 <= i < |lines| && IsPasswordLine(lines[i]);
      assert lines[1..][i - 1] == lines[i];
      LaterLinesIgnored(lines[1..], more);
    }
  }

  /**
   `get_authentication_token`: a missing file is reported and gives `None`; a
   file that was read gives the second `=`-field of its first password line.
   */
  function AuthenticationToken(file: Option<seq<string>>): (r: Lookup)
    ensures r.NotFound? <==> file.None? || NoPasswordLine(file.value)
    ensures r.Found? ==>
              file.Some? && exists i: nat :: FirstPasswordAt(file.value, i) && SecondField(file.value[i]) == Some(r.token)
    ensures r.Raised? ==>
              file.Some? && r.error.IndexError? && FirstPasswordAt(file.value, r.error.at)
              && '=' !in file.value[r.error.at]
  {
    match file
    case None => NotFound
    case Some(lines) => ScanLines(lines)
  }

  /** The token with the line's newline removed. */
  function TrimNewline(token: string): (t: string)
    ensures '\n' !in token ==> t == token
    ensures |token| > 0 && token[|token| - 1] == '\n' ==> t + "\n" == token
    ensures t == token || t + "\n" == token
  {
    if |token| > 0 && token[|token| - 1] == '\n' then token[..|token| - 1] else token
  }

  /** Each line as `readlines` gives it: a newline, if any, only as its last character. */
  predicate ReadLinesShape(lines: seq<string>) {
    forall i :: 0 <= i < |lines| ==> '\n' !in TrimNewline(lines[i])
  }

  /**
   The auth setting `main` hands to the exporter: `--auth` when given, otherwise
   the token looked up in the setup file, with its newline removed.
   */
  function ResolveAuth(cliAuth: Option<string>, file: Option<seq<string>>): (r: Result<Option<string>>)
    ensures cliAuth.Some? ==> r == Success(cliAuth)
    ensures cliAuth.None? ==> (r == Success(None) <==> file.None? || NoPasswordLine(file.value))
    ensures cliAuth.None? && r.Success? && r.value.Some? ==>
              file.Some? && exists i: nat :: FirstPasswordAt(file.value, i) && SecondField(file.value[i]).Some?
                                        && r.value.value == TrimNewline(SecondField(file.value[i]).value)
    ensures r.Failure? ==>
              cliAuth.None? && file.Some? && r.error.IndexError? && FirstPasswordAt(file.value, r.error.at)
              && '=' !in file.value[r.error.at]
    ensures cliAuth.None? && file.Some? && ReadLinesShape(file.value) && r.Success? && r.value.Some? ==>
              '\n' !in r.value.value
  {
    if cliAuth.Some? then Success(cliAuth)
    else
      match AuthenticationToken(file)
      case Found(token) =>
        TrimmedTokenHasNoNewline(file.value[FirstPasswordLine(file.value).value]);
        Success(Some(TrimNewline(token)))
      case NotFound => Success(None)
      case Raised(e) => Failure(e)
  }

  /** A token taken from a line as `readlines` gives it has no newline once trimmed. */
  lemma TrimmedTokenHasNoNewline(line: string)
    requires '=' in line
    ensures '\n' !in TrimNewline(line) ==> '\n' !in TrimNewline(SecondField(line).value)
  {
    if '\n' in TrimNewline(line) { return; }
    var token := SecondField(line).value;
    var start := IndexOf(line, '=') + 1;
    var end := start + |token|;
    var trimmed := TrimNewline(token);
    forall j | 0 <= j < |trimmed| ensures trimmed[j] != '\n' {
      assert trimmed[j] == line[start + j];
      if start + j < |TrimNewline(line)| {
        assert TrimNewline(line)[start + j] == line[start + j];
      }
    }
  }

  /**
   With no `--auth`, a setup file as `readlines` gives it and a URL without a
   newline, the URL string handed to `urlopen` carries no newline.
   */
  lemma ResolvedUrlHasNoNewline(url: string, lines: seq<string>)
    requires '\n' !in url && ReadLinesShape(lines)
    requires ResolveAuth(None, Some(lines)).Success?
    ensures '\n' !in Auth.WithAuth(url, ResolveAuth(None, Some(lines)).value)
  {
    var auth := ResolveAuth(None, Some(lines)).value;
    Auth.SuffixAddsNoNewline(url, auth);
  }

  /**
   On a line with a single `=`, the token is everything after it, the line's
   newline included.
   */
  lemma SingleEqualsSign(line: string, k: nat)
    requires k < |line| && line[k] == '=' && '=' !in line[..k] && '=' !in line[k+1..]
    ensures SecondField(line) == Some(line[k+1..])
  {
  }

  /** `readlines` keeps the newline, and so does the token taken from the end of the line. */
  lemma TokenKeepsNewline()
    ensures ScanLines(["# setup\n", "WEBPASSWORD=abc\n"]) == Found("abc\n")
  {
    var line := "WEBPASSWORD=abc\n";
    var lines := ["# setup\n", line];
    assert !IsPasswordLine(lines[0]);
    assert line[..|PasswordKey|] == PasswordKey;
    assert FirstPasswordLine(lines) == Some(1) by {
      assert lines[1..] == [line];
    }
    assert line[11] == '=' && '=' !in line[..11];
    assert line[12..] == "abc\n";
    SingleEqualsSign(line, 11);
  }

  /** Used as it is, that token puts a newline into the URL string handed to `urlopen`. */
  lemma NewlineInRequestUrl(url: string)
    ensures var token := ScanLines(["# setup\n", "WEBPASSWORD=abc\n"]).token;
            '\n' in Auth.WithAuth(url, Some(token))
  {
    TokenKeepsNewline();
    var fetched := Auth.WithAuth(url, Some("abc\n"));
    assert Auth.Truthy(Some("abc\n"));
    var suffix := fetched[|url|..];
    assert suffix == Auth.AuthParameter + "abc\n";
    assert suffix[|suffix| - 1] == '\n';
    assert fetched[|fetched| - 1] == '\n';
  }

  /**
   An empty password line, `WEBPASSWORD=` followed by its newline, gives the
   token `"\n"`, which is truthy: the auth suffix is added although the
   password is empty.
   */
  lemma EmptyPasswordSendsAuth(url: string)
    ensures ScanLines(["WEBPASSWORD=\n"]) == Found("\n")
    ensures Auth.WithAuth(url, Some(ScanLines(["WEBPASSWORD=\n"]).token)) == url + Auth.AuthParameter + "\n"
  {
    var line := "WEBPASSWORD=\n";
    assert line[..|PasswordKey|] == PasswordKey;
    assert FirstPasswordLine([line]) == Some(0);
    assert line[11] == '=' && '=' !in line[..11];
    assert line[12..] == "\n";
    SingleEqualsSign(line, 11);
  }

  /** With the newline removed, the same file gives an empty token, and no suffix is added. */
  lemma EmptyPasswordSendsNoAuth(url: string)
    ensures ResolveAuth(None, Some(["WEBPASSWORD=\n"])) == Success(Some(""))
    ensures Auth.WithAuth(url, ResolveAuth(None, Some(["WEBPASSWORD=\n"])).value) == url
  {
    EmptyPasswordSendsAuth(url);
  }
}
