# pihole_exporter: the pure core, in Dafny

This project models the deterministic parts of the Pi-hole metrics exporter
(`dr1s/pihole_exporter.py`), with the HTTP and file I/O taken away. There are two
exporters in the repository. The class-based one (`pihole_exporter/pihole_exporter.py`)
hands (metric, value) updates to a metrics handler from an external package. The
older Flask one (`src/pihole_exporter.py`) writes the exposition text itself.

Modules:

- `Base` (base.dfy): `Option`, and the Python exceptions the code lets escape
  (`KeyError`, `TypeError`, `IndexError`), carried in a `Result`.
- `Text` (text.dfy): `str.startswith`, `str.split` on one character, `join`,
  and the split/join round trip.
- `Json` (json.dfy): decoded JSON. An object is an ordered sequence of (key,
  value) members, which keeps the insertion order of a Python `dict`. Each value
  carries `text`, its `%s` rendering, which the model treats as opaque.
- `Auth` (auth.dfy): the `&auth=<token>` suffix that both versions of
  `get_json` add to a URL.
- `Summary` (summary.dfy): `get_summary` of the class-based exporter. Each summary
  key becomes one update: `status` becomes 1 or 0, `gravity_last_updated` becomes
  its nested `absolute` member, and every other key passes through as `pihole_<key>`.
- `ClientQueries` (client_queries.dfy): `get_exteneded_metrics`. It groups the
  all-queries records by (hostname, domain, answer type) and counts them. The
  module proves four things about the result: the exact counts, well-formedness,
  that the leaf total equals the number of records, and that the result does not
  depend on record order.
- `Token` (token.dfy): the `WEBPASSWORD` line scan of `get_authentication_token`,
  given the lines of the file, and the `--auth` fallback in `main`.
- `Legacy` (legacy.dfy): `convert_json` and `get_summary` of the Flask exporter,
  with their outputs split back into lines and parsed back into keys and values.

The two `get_json` functions use the same auth rule
(`pihole_exporter/pihole_exporter.py:57-58` and `src/pihole_exporter.py:24-25`).
`Auth.WithAuth` models both of them.

## Model

| member | source | states |
|---|---|---|
| `Auth.WithAuth` | pihole_exporter/pihole_exporter.py:56-58 | The URL string handed to `urlopen` always starts with the given URL. It equals that URL exactly when auth is falsy (`None` or `""`). Otherwise the rest of it is `&auth=` followed by the token. |
| `Auth.AuthRoundTrip` | src/pihole_exporter.py:23-25 | The suffix can be read back: a truthy token is recovered exactly, and a falsy setting leaves no trace on the URL. |
| `Auth.WithAuthInjective` | pihole_exporter/pihole_exporter.py:57-58 | Two auth settings give the same URL exactly when both are falsy or both are the same token. |
| `Auth.SuffixAddsNoNewline` | pihole_exporter/pihole_exporter.py:57-58 | The suffix adds no line break to a URL unless the token contains one. |
| `Summary.NormaliseField` | pihole_exporter/pihole_exporter.py:70-80 | `status` always gives one update, `pihole_status`, with 1 exactly when the value is `'enabled'` and 0 exactly when it is not. `gravity_last_updated` succeeds exactly when `v['absolute']` does, and then carries that member; otherwise it raises the same error. Every other key gives `pihole_<key>` with its value unchanged. |
| `Summary.NormaliseSummary` | pihole_exporter/pihole_exporter.py:66-80 | The updates are issued in key order, one per key, until the first key whose handling raises. It raises exactly when it stopped short, and the error is that key's error. |
| `Summary.OnlyGravityRaises` | pihole_exporter/pihole_exporter.py:75-77 | If `get_summary` raises, it raised on `gravity_last_updated`, because `['absolute']` failed on its value. |
| `Summary.SummaryOnePerKey` | pihole_exporter/pihole_exporter.py:69-80 | When the gravity value has an `absolute` member, the number of updates equals the number of keys, and removing `pihole_` from the i-th update's name gives back the i-th key. |
| `Summary.StatusUpdate` | pihole_exporter/pihole_exporter.py:70-74 | The status update is `pihole_status` with 1 for `'enabled'` and 0 for any other value. |
| `Summary.GravityUpdate` | pihole_exporter/pihole_exporter.py:75-77 | The gravity update carries the nested `absolute` member of the object, not the object itself. |
| `Summary.DistinctMetrics` | pihole_exporter/pihole_exporter.py:69-80 | Distinct summary keys give distinct metric names. |
| `ClientQueries.Tally` | pihole_exporter/pihole_exporter.py:90-97 | One loop step adds exactly 1 to the (hostname, domain, answer type) counter and changes no other counter. It keeps every counter at least 1 and every node non-empty. |
| `ClientQueries.FirstIncomplete` | pihole_exporter/pihole_exporter.py:86-89 | Finds the first record too short for `i[3]`, `i[2]` and `i[4]`, or reports that every record is long enough. |
| `ClientQueries.Grouped` | pihole_exporter/pihole_exporter.py:85-97 | The dict built from well-formed records is well-formed. Its counter at every (h, d, t) equals the number of records with fields 3, 2 and 4 equal to h, d and t. |
| `ClientQueries.Aggregate` | pihole_exporter/pihole_exporter.py:85-97 | The loop succeeds exactly when every record has fields 2 to 4. Otherwise it raises `IndexError` at the first short record. On success the result is well-formed and every counter equals its number of matching records. |
| `ClientQueries.PathPresentIffCounted` | pihole_exporter/pihole_exporter.py:90-97 | In a well-formed result, a label path is present exactly when its count is positive. |
| `ClientQueries.NodesHaveQueries` | pihole_exporter/pihole_exporter.py:90-93 | Every hostname node and every domain node in the result has at least one matching record under it. |
| `ClientQueries.TallyTotal` | pihole_exporter/pihole_exporter.py:90-97 | One loop step raises the sum of all counters by exactly 1. |
| `ClientQueries.AggregateTotal` | pihole_exporter/pihole_exporter.py:86-97 | The sum of all leaf counters equals the number of records, so no query is lost or counted twice. |
| `ClientQueries.OccurrencesPermutation` | pihole_exporter/pihole_exporter.py:86-97 | The number of records matching a label path is the same for any reordering of the records. |
| `ClientQueries.CountsDetermine` | pihole_exporter/pihole_exporter.py:90-97 | Two well-formed results with the same counter at every path are the same nested dict. |
| `ClientQueries.AggregatePermutation` | pihole_exporter/pihole_exporter.py:86-97 | Reordering `aq['data']` changes neither whether the loop raises nor the nested dict it builds. |
| `ClientQueries.ExtendedMetrics` | pihole_exporter/pihole_exporter.py:82-98 | A falsy response gives no update. A truthy response that is not an object raises `TypeError`, and an object without `data` raises `KeyError('data')`. Otherwise the update is always issued when every record is long enough, and it carries the well-formed grouped counts. When a record is too short, it raises `IndexError` at the first such record. |
| `Token.SecondField` | pihole_exporter/pihole_exporter.py:148 | `line.split('=')[1]` exists exactly when the line contains `=`. It is the text that starts after the first `=` and runs to the next `=` or the end of the line; it contains no `=`. |
| `Token.SecondFieldIsSplit` | pihole_exporter/pihole_exporter.py:148 | That text is the second piece of Python's `split('=')`. |
| `Token.FirstPasswordLine` | pihole_exporter/pihole_exporter.py:146-147 | Finds the position of the first line starting with `WEBPASSWORD`, or reports that there is none. |
| `Token.ScanLines` | pihole_exporter/pihole_exporter.py:146-150 | The result is `None` exactly when no line starts with `WEBPASSWORD`. Otherwise it is the second `=`-field of the first such line, or an `IndexError` when that line has no `=`. |
| `Token.LaterLinesIgnored` | pihole_exporter/pihole_exporter.py:146-149 | Once a password line has been seen, lines after it do not change the result. |
| `Token.AuthenticationToken` | pihole_exporter/pihole_exporter.py:140-153 | The result is `None` exactly when the file is missing or no line starts with `WEBPASSWORD`. A token is the second `=`-field of the first such line. An `IndexError` names that line, and it has no `=`. |
| `Token.SingleEqualsSign` | pihole_exporter/pihole_exporter.py:148 | On a line with one `=`, the token is everything after it, including the line's newline. |
| `Token.TokenKeepsNewline` | pihole_exporter/pihole_exporter.py:145-149 | For the file `# setup\n`, `WEBPASSWORD=abc\n`, the token is `abc\n`, with the newline. |
| `Token.NewlineInRequestUrl` | pihole_exporter/pihole_exporter.py:57-58 | Used unchanged, that token puts a line break into the URL string handed to `urlopen`. |
| `Token.EmptyPasswordSendsAuth` | pihole_exporter/pihole_exporter.py:145-148 | The file line `WEBPASSWORD=\n` gives the truthy token `\n`, so `get_json` adds `&auth=` and the newline even though the password is empty. |
| `Token.EmptyPasswordSendsNoAuth` | pihole_exporter/pihole_exporter.py:180-182 | With the newline removed, the same file gives the empty, falsy token and the URL is left without an auth suffix. |
| `Token.TrimmedTokenHasNoNewline` | pihole_exporter/pihole_exporter.py:145-148 | For a line with `=` that is shaped as `readlines` returns it, the token has no line break once its trailing newline is removed. |
| `Token.ResolveAuth` | pihole_exporter/pihole_exporter.py:180-182 | An explicit `--auth` is used as given. Without it, the result is `None` exactly when the file is missing or has no `WEBPASSWORD` line. A token is the second `=`-field of the first such line with its newline removed, and it has no line break when the file is shaped as `readlines` returns it. An `IndexError` names that line, and it has no `=`. |
| `Token.ResolvedUrlHasNoNewline` | pihole_exporter/pihole_exporter.py:180-182 | With no `--auth`, a setup file shaped as `readlines` returns it, and a URL with no line break, the URL string handed to `urlopen` has no line break. |
| `Legacy.ConvertJson` | src/pihole_exporter.py:46-50 | The output is empty exactly when the object has no keys. |
| `Legacy.ConvertJsonAppend` | src/pihole_exporter.py:48-49 | Rendering the members `a ++ b` gives the rendering of `a` followed by the rendering of `b`. |
| `Legacy.ConvertJsonLines` | src/pihole_exporter.py:46-50 | Split at newlines, the output has exactly one line per key, in key order. Each line is `pihole_<name>{<option>="<key>"} <value>`, and nothing follows the last newline. |
| `Legacy.SampleRoundTrip` | src/pihole_exporter.py:49 | Parsing a sample line gives back its key and value. |
| `Legacy.SummaryLine` | src/pihole_exporter.py:37-42 | The `status` line is `pihole_status 1` exactly when the value is `'enabled'`, and `pihole_status 0` exactly when it is not. Every other key gives `pihole_<key> <value>`. |
| `Legacy.SummaryBody` | src/pihole_exporter.py:36-42 | The summary loop writes nothing exactly when the summary has no keys. |
| `Legacy.GetSummary` | src/pihole_exporter.py:33-44 | The output always begins with `pihole_exporter_version 0.1\n`. |
| `Legacy.GetSummaryLines` | src/pihole_exporter.py:35-42 | Split at newlines, the output is the version line followed by one line per key, in key order: 1 + (number of keys) lines, with nothing after the last newline. |
| `Legacy.SummaryLineRoundTrip` | src/pihole_exporter.py:38-42 | Parsing a summary line gives back its key, and either the value or the 1/0 of the status. |

## Left out

- The metrics handler and `generate_latest` of the external `prometheus_metrics` package (imported at `pihole_exporter/pihole_exporter.py:30`). Its merge, zero-fill and registry behaviour cannot be checked against any source, so it is not modelled. The model records the updates handed to it as data.
- `generate_latest` of the class-based exporter (`pihole_exporter/pihole_exporter.py:100-127`) and the constructor's metric registrations (lines 48-54). They only pass fetched objects to that handler.
- HTTP fetching and JSON decoding in both `get_json` functions. These are network I/O; the decoded objects are inputs.
- The Flask route `metrics()`, the WSGI app, the server setup, the `argparse` code in both `main` functions and the URL constants. These are serving and CLI wiring. Only the `--auth` fallback of `main` is modelled, in `Token.ResolveAuth`.
- Opening the setup file and printing the "Unable to find" message. A missing file is `None` and a file that was read is its list of lines.
- Python's `%s` rendering of values, including floats. Each JSON value carries its rendered text as an opaque string.
- The insertion order of the nested `client_data` dicts. The model uses Dafny maps, and that order only affects how the external handler prints them.
- The JSON types of record fields. Each field is a canonical text, equal exactly when the decoded values are equal.
- The shapes of the decoded responses beyond those modelled. The all-queries response is falsy, a non-object (which raises `TypeError`), or an object. Its `data` is assumed to be a list of lists: a `data` that is not a list, and a record that is a dict (where `i[3]` raises `KeyError`) or a string (indexed by character), are not modelled. The summary response of both exporters (`pihole_exporter/pihole_exporter.py:69`, `src/pihole_exporter.py:36`) is assumed to be an object.
- `convert_json` over a JSON list (the API can send `[]` for an empty top list). Only objects are modelled.
- `setup.py`: packaging metadata only.
- `Legacy.ConvertJsonLines`: the one-line-per-key reading holds only when name, option, keys and value texts contain no newline, because the code writes them out unescaped.
- `Legacy.GetSummaryLines`: holds only when keys, and the value texts of keys other than `status`, contain no newline, for the same reason.
- `Legacy.SampleRoundTrip`: holds only for keys without a double quote, because the code does not escape label values.
- `Legacy.SummaryLineRoundTrip`: holds only for keys without a space.
- `Token.ResolveAuth`: removes the token's trailing newline, which the code as written does not do. The newline does reach the URL string passed to `urlopen`, but `urllib` strips surrounding whitespace from a URL before sending it, so a non-empty token arrives intact either way. The one visible difference is an empty password, which as written sends `&auth=` where no suffix is intended (see Findings).

## Findings

| source | as written | input that shows it | evidently intended | confidence | as-written member | corrected member |
|---|---|---|---|---|---|---|
| pihole_exporter/pihole_exporter.py:145-148 | `readlines` keeps each line's `\n`, and `line.split('=')[1]` returns the token with it. `get_json` adds `&auth=<token>\n` to the URL string it passes to `urlopen`. `urllib` strips the trailing whitespace before sending, so a non-empty token arrives intact. An empty password, however, gives the truthy token `\n`, and the suffix `&auth=` is sent. | setup file line `WEBPASSWORD=\n` gives token `\n`, and the URL string ends in `&auth=\n` | the token without its newline, so that an empty password is falsy and no auth suffix is added | low; not executed | `Token.EmptyPasswordSendsAuth` (also `Token.NewlineInRequestUrl`) | `Token.ResolveAuth` (property proved in `Token.EmptyPasswordSendsNoAuth` and `Token.ResolvedUrlHasNoNewline`) |
