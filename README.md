# pyvtt engine rules in Dafny

pyvtt is a web server for virtual tabletop sessions. Each GM owns games, and
each game holds scenes, tokens and dice rolls. This project models the
decision rules of the server's `Engine` class (vtt/engine.py) and proves
properties about them:

- **Command-line options.** The argv loop of `Engine.__init__` reads
  `--appname=`, `--prefdir=` and `--loglevel=`. `CommandLine.ParseCommandLine`
  is the loop. `Parsed` is its reference fold. Python's `str.split` is
  `Text.Split`.
- **Announced addresses.** `getDomain`, `getUrl`, `getWebsocketUrl` and
  `getAuthCallbackUrl` are functions of the `--localhost` switch and the
  `hosting` settings (module `Urls`). `f'{port}'` is `Decimal.IntToString`.
  A reference parser, `Urls.ParseEndpoint`, reads a URL back into scheme,
  host, port and path. The round-trip lemmas use it to state what each URL
  announces without repeating how the URL is built.
- **Client address.** `getClientIp` picks the WSGI environ key (module
  `ClientAddress`: `ClientIpKey`, `ClientIp`).
- **Name check.** `verifyUrlSection` with `url_regex` is in module
  `UrlSection`. It is modelled as a greedy character run followed by Python's
  `$` anchor. It is proved equal to the regex's match semantics, and
  `gm_blacklist` sits next to it.
- **Build identifier.** `getBuildSha` is `Build.GetBuildSha`.
- **Cleanup accounting.** The loop of `cleanupAll` that adds up freed
  resources is `Cleanup.CleanupAll`. It folds over GM records. Each record
  carries the results of `hasExpired`, `preDelete` and `cleanup` as data.

Integers are unbounded, as Python's are. Strings are `seq<char>`. A missing
value (Python's `None`) is `Wrappers.Option`.

## Model

| member | source | states |
|---|---|---|
| CommandLine.ParseCommandLine | vtt/engine.py:34-45 | The argv loop ends with the settings given by the reference fold `Parsed`. The fold starts from `pyvtt`, the caller's pref dir and `INFO`, and applies every argument in order. |
| CommandLine.FlagOf | vtt/engine.py:38-44 | An argument sets option f exactly when it starts with f's prefix. At most one prefix can match, so the elif order never matters. |
| CommandLine.PrefixesExclusive | vtt/engine.py:38-44 | No argument starts with two different option prefixes. |
| CommandLine.Value | vtt/engine.py:39 | `arg.split(prefix)[1]` is a prefix of the text after the option prefix. It contains no occurrence of the prefix and ends at the next one, or runs to the end of the argument. |
| CommandLine.LastMatchWins | vtt/engine.py:37-45 | The last argument that starts with an option's prefix sets that option's value. |
| CommandLine.UnsetKeepsDefault | vtt/engine.py:35-36 | If no argument names an option, it keeps its default: `pyvtt`, the caller's pref dir, or `INFO`. |
| CommandLine.OnlyOptionArgsMatter | vtt/engine.py:37-45 | Removing every argument that matches none of the three prefixes leaves the outcome unchanged. |
| Text.SplitAfterPrefix | vtt/engine.py:39 | If a string starts with the separator, `split` yields an empty first piece. The second piece is the text up to the separator's next occurrence. |
| Text.Split | vtt/engine.py:39 | No piece of `s.split(sep)` contains `sep`. Together with `Text.JoinSplit` this fixes the pieces only for a separator that cannot overlap itself (`Text.SplitUnique`). For `"aaa".split("aa")`, `["a", ""]` meets both contracts too. |
| Text.SplitUnique | vtt/engine.py:39 | For a separator none of whose proper prefixes is also a suffix, any non-empty list of pieces that joins back to s and in which no piece contains the separator equals `s.split(sep)`. |
| CommandLine.PrefixUnbordered | vtt/engine.py:38-44 | Each option prefix ends in its only `=`, so it cannot overlap itself, and `Text.SplitUnique` applies to the split at line 39. |
| Text.JoinSplit | vtt/engine.py:42 | `sep.join(s.split(sep)) == s`: the model of `str.split` loses no text. |
| Decimal.IntToStringRoundTrip | vtt/engine.py:296 | The decimal text that `f'{port}'` writes reads back as the same integer, negative ports included. |
| Urls.GetUrl | vtt/engine.py:294-297 | The URL starts with `https://` iff a reverse proxy or ssl is on. Otherwise it starts with `http://`. |
| Urls.GetWebsocketUrl | vtt/engine.py:299-302 | The URL starts with `wss://` iff a reverse proxy or ssl is on, else with `ws://`. It always ends in `/vtt/websocket`. |
| Urls.GetAuthCallbackUrl | vtt/engine.py:304-307 | The URL starts with `https://` iff a reverse proxy or ssl is on, else with `http://`. It always ends in `/vtt/callback`. |
| Urls.DefaultHostingUrl | vtt/engine.py:58-64 | With the default hosting settings the server announces `http://localhost:8080`. |
| Urls.DefaultHostingWebsocketUrl | vtt/engine.py:58-64 | With the default hosting settings the websocket URL is `ws://localhost:8080/vtt/websocket`. |
| Urls.DefaultHostingAuthCallbackUrl | vtt/engine.py:58-64 | With the default hosting settings the callback URL is `http://localhost:8080/vtt/callback`. |
| Urls.Domain | vtt/engine.py:283-289 | getDomain is `localhost` in `--localhost` mode and the configured `hosting` domain otherwise. The result is a host name (no `:` or `/`) whenever the configured domain is one. |
| Urls.LocalhostIgnoresDomain | vtt/engine.py:283-289 | In localhost mode the domain is `localhost`, whatever the hosting domain holds. |
| Urls.AuthCallbackExtendsUrl | vtt/engine.py:294-307 | The callback URL is the base URL followed by `/vtt/callback`. |
| Urls.ParseAssembled | vtt/engine.py:297 | The reference parser recovers every part of `scheme://host[:port]path`. This holds for a colon-free scheme, a host without `:` or `/`, and an empty or `/`-led path. |
| Urls.UrlParts | vtt/engine.py:291-297 | getUrl parses to: scheme https/http by the secure condition, host `getDomain()`, port present exactly when there is no reverse proxy (and equal to the configured port), and an empty path. |
| Urls.WebsocketUrlParts | vtt/engine.py:299-302 | getWebsocketUrl parses to: scheme wss/ws, host `getDomain()`, port exactly when there is no reverse proxy, and path `/vtt/websocket`. |
| Urls.AuthCallbackUrlParts | vtt/engine.py:304-307 | getAuthCallbackUrl parses to: scheme https/http, host `getDomain()`, port exactly when there is no reverse proxy, and path `/vtt/callback`. |
| ClientAddress.ClientIpKey | vtt/engine.py:328-333 | The key is `HTTP_X_FORWARDED_FOR` iff a unix socket is set or a reverse proxy is on. Otherwise it is `REMOTE_ADDR`. |
| ClientAddress.ClientIp | vtt/engine.py:331-333 | The result is the environ value under the chosen key, or None when that key is missing. |
| ClientAddress.ProxiedIgnoresRemoteAddr | vtt/engine.py:330-331 | Behind a socket or a proxy, changing `REMOTE_ADDR` does not change the client address. |
| ClientAddress.DirectIgnoresForwardedFor | vtt/engine.py:332-333 | On a direct server, an `X-Forwarded-For` header cannot change the client address. |
| UrlSection.VerifyUrlSection | vtt/engine.py:325-326 | The check is the greedy run of class characters followed by Python's `$`. An accepted string is non-empty and starts with a class character. Every non-empty run of class characters is accepted. |
| UrlSection.VerifyUrlSectionIsRegex | vtt/engine.py:325-326 | The greedy check holds iff `re.match('^[A-Za-z0-9_\-.]+$', s)` finds a match. The regex is modelled as: some run of k ≥ 1 class characters, then Python's `$` at k. |
| UrlSection.VerifyUrlSectionAccepts | vtt/engine.py:71 | The accepted strings are exactly w and w + "\n", for a non-empty run w of `A-Z a-z 0-9 _ - .`. |
| UrlSection.BlacklistBesideRegex | vtt/engine.py:70-71 | The pattern rejects the blacklist's first entry `''`. It accepts `static`, `asset`, `vtt` and `game`, so only the blacklist keeps those out. |
| UrlSection.TrailingNewlineAccepted | vtt/engine.py:71 | As written, the pattern accepts `"game\n"`, although `\n` is not in the character class. |
| UrlSection.VerifyUrlSectionStrictAccepts | vtt/engine.py:71 | The corrected check accepts exactly the non-empty runs of class characters. It implies the written check, and the two differ only on a string that ends in a newline. |
| Build.GetBuildSha | vtt/engine.py:309-317 | Returns the debug hash whenever one is set. Otherwise it returns `version` when there is no git hash, and `version-githash` when there is. For a dash-free version, the result splits back into version and git hash. |
| Build.SplitBuildShaRoundTrip | vtt/engine.py:313-317 | For a version without `-`, splitting `version[-githash]` at its first `-` recovers the version and the optional git hash. |
| Cleanup.CleanupAll | vtt/engine.py:403-439 | Reported GMs are exactly the expired GMs' URLs. The games list is every other GM's removed games. Bytes are the expired GMs' preDelete bytes plus the others' cleanup bytes, plus the export folder size when there are zips. Rolls, tokens and md5s are sums over the GMs that did not expire. |
| Cleanup.SweepSplits | vtt/engine.py:411-429 | Every total over a + b is the total over a combined with the total over b. |
| Cleanup.ExpiredUrlsExact | vtt/engine.py:415-421 | A URL is reported iff some expired GM has it. The number of reported URLs equals the number of expired GMs. |
| Cleanup.ExpiredSkipsCleanup | vtt/engine.py:416-424 | What an expired GM's cleanup would return never reaches any total. |
| Cleanup.LiveSkipsPreDelete | vtt/engine.py:416-424 | The preDelete size of a GM that did not expire never reaches any total. |
| Cleanup.NoneExpired | vtt/engine.py:412-421 | If no GM expired, no GM is reported and no preDelete bytes are counted. |
| Cleanup.AllExpired | vtt/engine.py:412-429 | If every GM expired, every GM is reported, no games are listed and every cleanup counter is zero. |

## Findings

| source | as written | input that shows it | evidently intended | confidence | as-written member | corrected member |
|---|---|---|---|---|---|---|
| vtt/engine.py:71 | `re.match` with `$` also matches just before a final newline | `"game\n"` passes `verifyUrlSection` | only non-empty runs of `[A-Za-z0-9_\-.]` pass (`re.fullmatch` or `\Z`) | medium, not executed | UrlSection.TrailingNewlineAccepted | UrlSection.VerifyUrlSectionStrictAccepts |

The rest of the model keeps the pattern as written (`UrlSection.VerifyUrlSection`), because no modelled operation depends on it.

## Left out

- Settings file creation and loading, JSON I/O, and the `--help` printout with its process exit (vtt/engine.py:121-175) are file I/O and process control.
- The `--localhost` switch (vtt/engine.py:99) is a plain membership test. The model takes its value as an input, `Urls.Server.localhost`.
- The `--debug` switch (vtt/engine.py:100) is not modelled. Only its effect on the build identifier enters, as the generated debug hash `Build.BuildInfo.debugHash` (vtt/engine.py:244-246).
- The `--quiet` and `--no-logs` switches (vtt/engine.py:101-102) only configure logging, which is not modelled.
- Replacing an empty domain with the public IP (vtt/engine.py:184-188) calls a web service, so the model takes the domain as given. Provider setup, database creation, plugin installation and `run` (vtt/engine.py:190-281) are framework glue.
- The version file, the git hash from `sha.txt` or `git`, and the random debug hash (vtt/engine.py:223-246) are file, process and randomness inputs. They are parameters of `Build.BuildInfo`.
- `getCountryFromIp` and `getPublicIp` use the network. `parseLoginLog` reads a log file. `getMd5` and `getSize` read file handles (vtt/engine.py:338-392).
- `getPort`, `hasReverseProxy` and `hasSsl` return a hosting setting as it is. They appear only as field reads of `Urls.Hosting`.
- `getClientAgent` (vtt/engine.py:335-336) reads the `HTTP_USER_AGENT` environ key. `getSupportedDice` (vtt/engine.py:394-395) returns a constant list of dice sizes. Neither is modelled, because neither makes a decision.
- Cleanup.CleanupAll: `hasExpired`, `preDelete`, `cleanup`, `gm.delete()` and the cache lookup live in vtt/cache.py and the ORM modules, which are not part of this model. Their results are inputs, and the model does not check that an expired GM's data is really gone. The export-folder sweep (vtt/engine.py:432-437) is filesystem work: the zip count and folder size are inputs.
- `saveToDict` and `loadFromDict` (vtt/engine.py:441-490) wrap the ORM and the engine cache, whose source is not part of this model.
- Urls.UrlParts, Urls.WebsocketUrlParts, Urls.AuthCallbackUrlParts: the parse round trip is stated only for a domain without `:` or `/`. The reference parser `Urls.ParseEndpoint` ends the host at its first `:` or `/`. So it misreads a domain that contains either character, such as a bracketed IPv6 literal (`[::1]`), although RFC 3986 reads that literal unambiguously. The scheme and path-tail contracts of the getters hold for every domain.
- static/music.js is floating-point volume arithmetic and browser UI. test/test_fancy_url_api.py exercises `FancyUrlApi`, whose source is not part of this model.
- Thread safety and locking do not arise in the modelled rules, which are sequential.
