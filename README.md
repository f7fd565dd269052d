# AWS Parameter Store environment binding, in Dafny

This project models the core of `AwsParameterStoreService`, the Jenkins
plugin service that reads parameters from the AWS Systems Manager
Parameter Store and binds them as environment variables of a build.

- **Name translation** (`EnvNames`, `names.dfy`): `toEnvironmentVariable`
  picks a start offset from the path and the naming mode (`relative`,
  `absolute`, anything else behaves as `basename`; no path means the flat
  listing), skips one `/` found there, and maps every remaining character:
  letters upper-cased, digits kept, everything else `_`. The pure function
  `EnvironmentVariable` is the specification; the method
  `ToEnvironmentVariable` follows the source step by step (the character
  loop over a growing buffer is `EncodeFrom`) and is proved equal to it. Where the source reads the character at an offset equal to
  (or past) the name's length it throws, and both callers catch that and
  skip the parameter; the model returns `None` there.
- **Name prefixes** (`NamePrefixes`, `prefixes.dfy`): the BeginsWith filter
  of the flat listing, `namePrefixes.split(",")` with Java's rules (no
  separator gives the whole string, trailing empty fields are dropped),
  and the starts-with test the store applies.
- **Paging** (`Paging`, `paging.dfy`): a listing is the sequence of pages
  the store would answer plus the index of the call that fails, if any;
  the continuation token is the index of the next page.
- **The environment** (`Bindings`, `bindings.dfy`): the build context is a
  class with a `map` field that each binding updates, the last write to a
  key winning; `ApplyWrites` is its specification.
- **Retrieval** (`ParameterStore`, `service.dfy`): `buildEnvVars` dispatches
  on whether the path is empty. The flat branch pages through
  `describeParameters` collecting names (a failed call stops paging and
  keeps what was collected), then fetches each name and binds it (a failed
  fetch skips that name). The path branch pages through
  `getParametersByPath`, binding each parameter as its page arrives (a
  failed page stops paging; bindings already written stay; a name that does
  not translate is skipped). The store is plain data: a function from the
  describe filter to a listing, a function from a name to its value or
  `None` (the call failed), and a function from (path, recursive) to a
  listing of (name, value) parameters.

In the path branch a failed page stops paging, and the bindings already
written from earlier pages stay (`PathFailureKeepsEarlierPages`). An offset
equal to the name's length does not give an empty key: the source throws and
the parameter is skipped (`TranslationFails`).

Java's `null` for `path` and `naming` is `None`; `null` and `""` for
`namePrefixes` are both `""` (the source only asks `StringUtils.isEmpty`).

## Model

| member | source | states |
|---|---|---|
| EnvNames.IsLetter | src/main/java/hudson/plugins/awsparameterstore/AwsParameterStoreService.java:309 | Character.isLetter restricted to ASCII: 'a'..'z' and 'A'..'Z' only |
| EnvNames.IsDigit | src/main/java/hudson/plugins/awsparameterstore/AwsParameterStoreService.java:311 | Character.isDigit restricted to ASCII: '0'..'9' only |
| EnvNames.ToUpper | src/main/java/hudson/plugins/awsparameterstore/AwsParameterStoreService.java:310 | ASCII letters become 'A'..'Z' (lower-case shifted by 32), everything else is kept |
| EnvNames.EnvChar | src/main/java/hudson/plugins/awsparameterstore/AwsParameterStoreService.java:309-315 | each key character is in [A-Z0-9_]; it is '_' exactly when the name character is neither a letter nor a digit; digits are kept |
| EnvNames.Encode | src/main/java/hudson/plugins/awsparameterstore/AwsParameterStoreService.java:307-316 | the encoding has exactly as many characters as its input: nothing is dropped or collapsed |
| EnvNames.EncodeAt | src/main/java/hudson/plugins/awsparameterstore/AwsParameterStoreService.java:307-316 | character k of the encoding is the key character of input character k |
| EnvNames.LastIndexOf | src/main/java/hudson/plugins/awsparameterstore/AwsParameterStoreService.java:301 | the result is -1 or an index holding the character, and no later index holds it |
| EnvNames.Basename | src/main/java/hudson/plugins/awsparameterstore/AwsParameterStoreService.java:301 | defines a name's final segment independently of lastIndexOf: its longest suffix without a '/' |
| EnvNames.StartOffset | src/main/java/hudson/plugins/awsparameterstore/AwsParameterStoreService.java:292-303 | defines the start offset: 0 without a path; the path's length under relative naming when the name is longer, else 0; 1 under absolute naming; one past the last '/' for any other naming, null included |
| EnvNames.KeyStart | src/main/java/hudson/plugins/awsparameterstore/AwsParameterStoreService.java:304-306 | the key start stays within the name after skipping one '/' |
| EnvNames.EnvironmentVariable | src/main/java/hudson/plugins/awsparameterstore/AwsParameterStoreService.java:290-318 | defines the translation: no key when the start offset is at or past the name's end (charAt throws, the caller skips the parameter), otherwise the encoding of the name from the key start on |
| EnvNames.EncodeFrom | src/main/java/hudson/plugins/awsparameterstore/AwsParameterStoreService.java:307-316 | the character loop builds exactly the encoding of the name from the start offset on |
| EnvNames.ToEnvironmentVariable | src/main/java/hudson/plugins/awsparameterstore/AwsParameterStoreService.java:290-318 | picking the start offset from path and naming and skipping one '/' there gives exactly the specified key, or None where charAt would throw |
| EnvNames.ToEnvironmentVariableFlat | src/main/java/hudson/plugins/awsparameterstore/AwsParameterStoreService.java:276-278 | the one-argument overload is the translation with no path and no naming |
| EnvNames.KeyCharacters | src/main/java/hudson/plugins/awsparameterstore/AwsParameterStoreService.java:304-317 | a key has one character per name character from the key start onward, each the mapped character, all in [A-Z0-9_] |
| EnvNames.FlatKey | src/main/java/hudson/plugins/awsparameterstore/AwsParameterStoreService.java:292-306 | with no path the naming is ignored; the empty name fails; one leading '/' is skipped, otherwise the whole name is encoded |
| EnvNames.AbsoluteKey | src/main/java/hudson/plugins/awsparameterstore/AwsParameterStoreService.java:298-306 | absolute naming skips index 0 and one more '/' after it; names of length 0 or 1 fail |
| EnvNames.AfterLastSlashIsBasename | src/main/java/hudson/plugins/awsparameterstore/AwsParameterStoreService.java:301 | the suffix after the last '/' is the name's final segment (longest '/'-free suffix) |
| EnvNames.BasenameNoKey | src/main/java/hudson/plugins/awsparameterstore/AwsParameterStoreService.java:300-304 | under basename naming an empty name or one ending in '/' gets no key, because charAt reads past the end |
| EnvNames.BasenameStart | src/main/java/hudson/plugins/awsparameterstore/AwsParameterStoreService.java:300-306 | under basename naming the key of any other name starts just after its last '/', inside the name |
| EnvNames.BasenameFinalSegment | src/main/java/hudson/plugins/awsparameterstore/AwsParameterStoreService.java:300-317 | under basename naming any other name is keyed by the encoding of its final segment |
| EnvNames.BasenameKey | src/main/java/hudson/plugins/awsparameterstore/AwsParameterStoreService.java:300-306 | any naming other than relative and absolute, null included, keys the final segment; an empty name or one ending in '/' fails |
| EnvNames.RelativeKey | src/main/java/hudson/plugins/awsparameterstore/AwsParameterStoreService.java:294-306 | relative naming of path + '/' + rest keys rest, for path "p" and for "p/" alike |
| EnvNames.RelativeLongName | src/main/java/hudson/plugins/awsparameterstore/AwsParameterStoreService.java:294-306 | relative naming of a name longer than the path starts at the path's length, whether or not the name lies under the path, skipping one '/' found there |
| EnvNames.RelativeOutsidePath | src/main/java/hudson/plugins/awsparameterstore/AwsParameterStoreService.java:295-296 | the name is not checked against the path: "/other/xy" under "/service" keys "Y" |
| EnvNames.RelativeShortName | src/main/java/hudson/plugins/awsparameterstore/AwsParameterStoreService.java:294-297 | relative naming of a name no longer than the path starts at index 0, as the flat translation does |
| EnvNames.BasenameIsDefault | src/main/java/hudson/plugins/awsparameterstore/AwsParameterStoreService.java:71-73 | the naming constant "basename" is never compared: it behaves exactly as a null or any other value that is neither "relative" nor "absolute" |
| EnvNames.TranslationFails | src/main/java/hudson/plugins/awsparameterstore/AwsParameterStoreService.java:290-306 | translation fails exactly for the empty name, a one-character name in absolute mode, or a name ending in '/' in basename mode |
| EnvNames.EncodeOf | src/main/java/hudson/plugins/awsparameterstore/AwsParameterStoreService.java:307-316 | a string that agrees with the mapped characters one by one is the encoding |
| EnvNames.FlatExampleSymbols | src/test/java/hudson/plugins/awsparameterstore/AwsParameterStoreServiceTest.java:120-127 | "*X()_test" gives "_X___TEST" |
| EnvNames.FlatExampleDigits | src/test/java/hudson/plugins/awsparameterstore/AwsParameterStoreServiceTest.java:120-127 | "123abCD" gives "123ABCD" |
| EnvNames.FlatExamplePlain | src/test/java/hudson/plugins/awsparameterstore/AwsParameterStoreServiceTest.java:120-127 | "name3" gives "NAME3" |
| EnvNames.BasenameExamples | src/test/java/hudson/plugins/awsparameterstore/AwsParameterStoreServiceTest.java:129-154 | "/service/name1" under "/service/" or "/service" gives "NAME1" with basename or null naming |
| EnvNames.AbsoluteExample | src/test/java/hudson/plugins/awsparameterstore/AwsParameterStoreServiceTest.java:156-172 | "/service/name1" in absolute mode gives "SERVICE_NAME1" |
| EnvNames.RelativeExample | src/test/java/hudson/plugins/awsparameterstore/AwsParameterStoreServiceTest.java:174-190 | "/service/app/name1" in relative mode gives "APP_NAME1" under "/service/" and "/service" |
| EnvNames.KeysCollide | src/main/java/hudson/plugins/awsparameterstore/AwsParameterStoreService.java:307-316 | keys are not unique: "a-b" and "a_b" both give "A_B" |
| NamePrefixes.SplitAt | src/main/java/hudson/plugins/awsparameterstore/AwsParameterStoreService.java:211 | there is at least one field and no field holds the separator |
| NamePrefixes.DropTrailingEmpty | src/main/java/hudson/plugins/awsparameterstore/AwsParameterStoreService.java:211 | the result is a prefix of the fields, does not end in an empty field, and only empty fields were dropped |
| NamePrefixes.JavaSplit | src/main/java/hudson/plugins/awsparameterstore/AwsParameterStoreService.java:211 | defines String.split on one separator: the whole string when it holds no separator, otherwise the fields with trailing empty ones dropped |
| NamePrefixes.PrefixFilter | src/main/java/hudson/plugins/awsparameterstore/AwsParameterStoreService.java:208-212 | defines the BeginsWith values sent with the describe request: none for an empty or null namePrefixes, otherwise its comma split |
| NamePrefixes.Matches | src/main/java/hudson/plugins/awsparameterstore/AwsParameterStoreService.java:208-212 | defines the BeginsWith test the filter asks of the store: without a filter (empty namePrefixes) every name is admitted, with one some value must be a prefix of the name |
| NamePrefixes.JoinSplit | src/main/java/hudson/plugins/awsparameterstore/AwsParameterStoreService.java:211 | joining the fields of a split gives back the string |
| NamePrefixes.JoinGlue | src/main/java/hudson/plugins/awsparameterstore/AwsParameterStoreService.java:211 | putting a character in front of the first field puts it in front of the joined string |
| NamePrefixes.SplitJoin | src/main/java/hudson/plugins/awsparameterstore/AwsParameterStoreService.java:211 | splitting a join of separator-free fields gives back the fields |
| NamePrefixes.TrailingSeparatorIgnored | src/main/java/hudson/plugins/awsparameterstore/AwsParameterStoreService.java:211 | a trailing comma on a non-empty list adds no prefix |
| NamePrefixes.MultiPrefixFields | src/test/java/hudson/plugins/awsparameterstore/AwsParameterStoreServiceTest.java:210-217 | "prefix1,prefix2_name2" holds a comma, splits into "prefix1" and "prefix2_name2", and no trailing empty field is dropped |
| NamePrefixes.MultiPrefixFilter | src/test/java/hudson/plugins/awsparameterstore/AwsParameterStoreServiceTest.java:210-217 | "prefix1,prefix2_name2" sends the two prefixes "prefix1" and "prefix2_name2" |
| NamePrefixes.MultiPrefixMatches | src/test/java/hudson/plugins/awsparameterstore/AwsParameterStoreServiceTest.java:377-381 | that filter admits "prefix1_name1" and "prefix2_name2" and not "other_name" |
| Paging.Pages | src/main/java/hudson/plugins/awsparameterstore/AwsParameterStoreService.java:255-265 | the first call always answers a page; a non-empty listing answers its own pages |
| Paging.Served | src/main/java/hudson/plugins/awsparameterstore/AwsParameterStoreService.java:255-265 | no more pages are received than the listing holds |
| Paging.Response | src/main/java/hudson/plugins/awsparameterstore/AwsParameterStoreService.java:215-221 | defines one call: the page at the token and the next token (none after the last page), or a failure at the failing call |
| Paging.Delivered | src/main/java/hudson/plugins/awsparameterstore/AwsParameterStoreService.java:215-221 | defines what a paging loop collects: the items of every page received, in order |
| Paging.FlattenPrefix | src/main/java/hudson/plugins/awsparameterstore/AwsParameterStoreService.java:215-221 | the items of the first k pages are a prefix of all items |
| Paging.FlattenMember | src/main/java/hudson/plugins/awsparameterstore/AwsParameterStoreService.java:217-219 | an item is among the collected items exactly when some page holds it |
| Paging.DeliveredPrefix | src/main/java/hudson/plugins/awsparameterstore/AwsParameterStoreService.java:215-221 | what paging delivers is a prefix of the listing, and all of it when no call fails |
| Paging.FirstCallFails | src/main/java/hudson/plugins/awsparameterstore/AwsParameterStoreService.java:222-224 | a failure on the first call delivers nothing |
| Paging.FailureTruncates | src/main/java/hudson/plugins/awsparameterstore/AwsParameterStoreService.java:255-267 | a failure at call f delivers exactly the first f pages, as a listing that ended there would |
| Bindings.ApplyWrites | src/main/java/hudson/plugins/awsparameterstore/AwsParameterStoreService.java:230 | defines the environment after a sequence of context.env calls, applied in order |
| Bindings.Writes | src/main/java/hudson/plugins/awsparameterstore/AwsParameterStoreService.java:227-235 | defines the bindings a run of items produces: each item's own bindings, in order |
| Bindings.WritesStep | src/main/java/hudson/plugins/awsparameterstore/AwsParameterStoreService.java:227-235 | the bindings of a run with one more item end with that item's bindings |
| Bindings.WritesAppend | src/main/java/hudson/plugins/awsparameterstore/AwsParameterStoreService.java:255-265 | the bindings of two runs of items are those of each, in turn |
| Bindings.WritesMembership | src/main/java/hudson/plugins/awsparameterstore/AwsParameterStoreService.java:257-263 | a binding comes from a run of items exactly when one of its items yields it |
| Bindings.ApplyWritesSnoc | src/main/java/hudson/plugins/awsparameterstore/AwsParameterStoreService.java:230 | one more binding updates the environment at its key |
| Bindings.ApplyWritesAppend | src/main/java/hudson/plugins/awsparameterstore/AwsParameterStoreService.java:255-265 | writing two runs in turn is writing their concatenation |
| Bindings.ApplyWritesOverride | src/main/java/hudson/plugins/awsparameterstore/AwsParameterStoreService.java:230 | the writes override the environment: what they write wins, every other key keeps its value |
| Bindings.ApplyWritesIdempotent | src/main/java/hudson/plugins/awsparameterstore/AwsParameterStoreService.java:230 | applying the same writes twice leaves what applying them once gave |
| Bindings.ApplyWritesKeys | src/main/java/hudson/plugins/awsparameterstore/AwsParameterStoreService.java:259 | a key is bound afterwards exactly when it was bound before or some write names it |
| Bindings.ApplyWritesLastWins | src/main/java/hudson/plugins/awsparameterstore/AwsParameterStoreService.java:259 | a key holds the value of its last write |
| Bindings.ApplyWritesUntouched | src/main/java/hudson/plugins/awsparameterstore/AwsParameterStoreService.java:259 | a key no write names keeps its old binding, or stays unbound |
| Bindings.Context.constructor | src/test/java/hudson/plugins/awsparameterstore/AwsParameterStoreServiceTest.java:283 | a new context has no bindings |
| Bindings.Context.Env | src/main/java/hudson/plugins/awsparameterstore/AwsParameterStoreService.java:230 | binding a key replaces its value and leaves every other key alone |
| ParameterStore.HonoursPrefixFilter | src/main/java/hudson/plugins/awsparameterstore/AwsParameterStoreService.java:209-211 | defines the assumption that the store lists under a filter only names matching one of its values |
| ParameterStore.IsEmpty | src/main/java/hudson/plugins/awsparameterstore/AwsParameterStoreService.java:189 | defines StringUtils.isEmpty on the path: null or the empty string |
| ParameterStore.FlatWrite | src/main/java/hudson/plugins/awsparameterstore/AwsParameterStoreService.java:228-234 | defines the binding a described name yields: (key, value) when translation and the fetch both succeed, none otherwise |
| ParameterStore.PathWrite | src/main/java/hudson/plugins/awsparameterstore/AwsParameterStoreService.java:258-262 | defines the binding a listed parameter yields: (key, value) when its name translates, none otherwise |
| ParameterStore.FlatBindings | src/main/java/hudson/plugins/awsparameterstore/AwsParameterStoreService.java:203-236 | defines the environment after the flat listing: the old one with the writes of every delivered name applied in order |
| ParameterStore.PathBindings | src/main/java/hudson/plugins/awsparameterstore/AwsParameterStoreService.java:247-269 | defines the environment after the path listing: the old one with the writes of every parameter of every page received applied in order |
| ParameterStore.EnvVars | src/main/java/hudson/plugins/awsparameterstore/AwsParameterStoreService.java:188-194 | defines the environment after buildEnvVars: the flat listing for an empty or null path, the path listing otherwise |
| ParameterStore.FlatWriteOf | src/main/java/hudson/plugins/awsparameterstore/AwsParameterStoreService.java:229-231 | a described name yields a binding exactly when it translates and its value is fetched, and that binding is (key, value) |
| ParameterStore.PathWriteOf | src/main/java/hudson/plugins/awsparameterstore/AwsParameterStoreService.java:258-259 | a listed parameter yields a binding exactly when its name translates, and that binding is (key, value) |
| ParameterStore.DescribeParameterNames | src/main/java/hudson/plugins/awsparameterstore/AwsParameterStoreService.java:215-221 | the describe loop collects the names of every page received, in order, stopping at the last page or the first failed call |
| ParameterStore.BindName | src/main/java/hudson/plugins/awsparameterstore/AwsParameterStoreService.java:228-234 | fetching and binding one name writes its key and value when both succeed and changes nothing otherwise |
| ParameterStore.BindNames | src/main/java/hudson/plugins/awsparameterstore/AwsParameterStoreService.java:226-235 | the second loop binds, in order, every collected name that translates and whose value is fetched, and skips the rest |
| ParameterStore.BuildEnvVarsWithParameters | src/main/java/hudson/plugins/awsparameterstore/AwsParameterStoreService.java:203-236 | the environment becomes the old one with a binding for each collected name that translates and whose value is fetched, in order |
| ParameterStore.BindParameter | src/main/java/hudson/plugins/awsparameterstore/AwsParameterStoreService.java:258-262 | binding one parameter writes its key and value when the name translates and changes nothing otherwise |
| ParameterStore.BindPage | src/main/java/hudson/plugins/awsparameterstore/AwsParameterStoreService.java:257-263 | binding one page writes each parameter whose name translates, in order, and skips the rest |
| ParameterStore.BuildEnvVarsWithParametersByPath | src/main/java/hudson/plugins/awsparameterstore/AwsParameterStoreService.java:247-269 | the environment becomes the old one with a binding for each parameter of each page received before paging stopped |
| ParameterStore.BuildEnvVars | src/main/java/hudson/plugins/awsparameterstore/AwsParameterStoreService.java:188-194 | an empty or null path runs the flat listing, any other path the path listing |
| ParameterStore.FlatKeySource | src/main/java/hudson/plugins/awsparameterstore/AwsParameterStoreService.java:227-235 | every key the flat listing adds comes from a delivered name that translates to it and whose value was fetched |
| ParameterStore.FlatNameBound | src/main/java/hudson/plugins/awsparameterstore/AwsParameterStoreService.java:227-235 | every delivered name that translates and whose value is fetched ends up bound |
| ParameterStore.FlatBindingKeys | src/main/java/hudson/plugins/awsparameterstore/AwsParameterStoreService.java:207-235 | after the flat listing a key is bound exactly when it was bound before or a delivered name with a fetched value translates to it |
| ParameterStore.PathKeySource | src/main/java/hudson/plugins/awsparameterstore/AwsParameterStoreService.java:255-265 | every key the path listing adds comes from a delivered parameter whose name translates to it |
| ParameterStore.PathParameterBound | src/main/java/hudson/plugins/awsparameterstore/AwsParameterStoreService.java:257-263 | every delivered parameter whose name translates ends up bound |
| ParameterStore.PathBindingKeys | src/main/java/hudson/plugins/awsparameterstore/AwsParameterStoreService.java:250-268 | after the path listing a key is bound exactly when it was bound before or a delivered parameter's name translates to it |
| ParameterStore.FlatDescribeFailsFirst | src/main/java/hudson/plugins/awsparameterstore/AwsParameterStoreService.java:222-224 | a describe failure on the first call leaves the environment unchanged |
| ParameterStore.FlatGetFailureSkipsName | src/main/java/hudson/plugins/awsparameterstore/AwsParameterStoreService.java:229-234 | of two described names whose first fetch fails, only the second is bound |
| ParameterStore.DescribedNamesMatchPrefixes | src/main/java/hudson/plugins/awsparameterstore/AwsParameterStoreService.java:209-211 | when the store honours the BeginsWith filter, every name fetched matches one of the split prefixes |
| ParameterStore.PathFirstPageFails | src/main/java/hudson/plugins/awsparameterstore/AwsParameterStoreService.java:266-268 | a failure on the first path page leaves the environment unchanged and nothing escapes |
| ParameterStore.PathFailureKeepsEarlierPages | src/main/java/hudson/plugins/awsparameterstore/AwsParameterStoreService.java:255-267 | after a failure at page f every parameter of an earlier page whose name translates is bound |
| ParameterStore.DispatchIgnoresOtherBranch | src/main/java/hudson/plugins/awsparameterstore/AwsParameterStoreService.java:188-194 | the path branch never uses namePrefixes; the flat branch never uses naming or recursive |
| ParameterStore.EnvVarsIdempotent | src/main/java/hudson/plugins/awsparameterstore/AwsParameterStoreService.java:188-194 | running buildEnvVars twice against an unchanged store binds what running it once did |

## Left out

- Client construction (`getAWSSimpleSystemsManagement`): the memoised, synchronized client, proxy settings and the AWS SDK builder are library calls and locking; the model receives the store as data. It is called outside both try blocks, so a failure to build the client or resolve credentials escapes `buildEnvVars`; the model assumes the client is always obtained.
- Credential choice (`getAWSCredentialsProvider`) and the service constructor's default region: they build AWS SDK and Jenkins objects; the `env` argument of `buildEnvVars` only feeds this choice and is not modelled.
- Logging of warnings: a failure is modelled only as "no binding written" or "paging stopped".
- The store's own BeginsWith filtering: an assumption on the store (`HonoursPrefixFilter`), not modelled behaviour.
- Unicode: `Character.isLetter`, `isDigit` and `toUpperCase` are restricted to ASCII; a non-ASCII letter or digit becomes '_' in the model, where Java would keep or upper-case it. A model `char` is a Unicode scalar value while a Java `String` holds UTF-16 code units: a character outside the Basic Multilingual Plane is one model character but two Java chars, so Java writes two '_' for it where the model writes one, and `name.length() > path.length()` and the relative offset count code units in Java but scalar values in the model.
- `null` parameter names and values: names and values are strings; a `null` value handed to the context is not modelled.
- The `recursive` flag and the path are passed to the store as the request; what the store returns for them is the store's business. `recursive` is a nullable `Boolean` in the plugin; the model's `bool` has no null.
- Page size (`withMaxResults(1)`): the listing's pages are given as data, of any size.
- The build wrapper (field setters, `setUp` forwarding, the descriptor's list boxes and region sort).
