/**
 * AwsParameterStoreService: reads parameters from the store and binds
 * them in the build's environment, either by a flat listing (describe,
 * then get each name) or by a path-hierarchy listing.
 *
 * The store is data: each request maps to the pages it would answer and
 * the call, if any, that fails; a failed getParameter is None.
 */
module ParameterStore {
  import opened Wrappers
  import opened EnvNames
  import opened NamePrefixes
  import opened Paging
  import opened Bindings

  datatype Parameter = Parameter(name: string, value: string)

  /** The three store operations the service uses. */
  datatype Provider = Provider(
    describeParameters: Option<seq<string>> -> Pager<string>,
    getParameter: string -> Option<string>,
    getParametersByPath: (string, bool) -> Pager<Parameter>)

  /** The store honours the BeginsWith filter: every name it describes under a filter matches it. */
  ghost predicate HonoursPrefixFilter(provider: Provider)
  {
    forall filter: Option<seq<string>>, name: string ::
      name in Flatten(Pages(provider.describeParameters(filter))) ==> Matches(filter, name)
  }

  /** StringUtils.isEmpty: null or "". */
  predicate IsEmpty(s: Option<string>)
  {
    s.None? || s.value == []
  }

  /** The binding a described name yields: none when translation or the fetch fails. */
  function FlatWrite(getParameter: string -> Option<string>): string -> seq<Binding>
  {
    (name: string) =>
      match (EnvironmentVariable(name, None, None), getParameter(name))
      case (Some(key), Some(value)) => [(key, value)]
      case _ => []
  }

  /** The binding a listed parameter yields: none when its name does not translate. */
  function PathWrite(path: string, naming: Option<string>): Parameter -> seq<Binding>
  {
    (parameter: Parameter) =>
      match EnvironmentVariable(parameter.name, Some(path), naming)
      case Some(key) => [(key, parameter.value)]
      case None => []
  }

  /** The environment after the flat listing. */
  function FlatBindings(env: map<string, string>, provider: Provider, namePrefixes: string): map<string, string>
  {
    var names := Delivered(provider.describeParameters(PrefixFilter(namePrefixes)));
    ApplyWrites(env, Writes(names, FlatWrite(provider.getParameter)))
  }

  /** The environment after the path-hierarchy listing. */
  function PathBindings(env: map<string, string>, provider: Provider, path: string, recursive: bool,
                        naming: Option<string>): map<string, string>
  {
    ApplyWrites(env, Writes(Delivered(provider.getParametersByPath(path, recursive)), PathWrite(path, naming)))
  }

  /** The environment after buildEnvVars: flat listing for an empty or null path, else by path. */
  function EnvVars(env: map<string, string>, provider: Provider, path: Option<string>, recursive: bool,
                   naming: Option<string>, namePrefixes: string): map<string, string>
  {
    if IsEmpty(path) then FlatBindings(env, provider, namePrefixes)
    else PathBindings(env, provider, path.value, recursive, naming)
  }

  /** A described name yields (key, value) exactly when it translates to key and its fetch gives value. */
  lemma FlatWriteOf(getParameter: string -> Option<string>, name: string, binding: Binding)
    ensures binding in FlatWrite(getParameter)(name) <==>
      EnvironmentVariable(name, None, None) == Some(binding.0) && getParameter(name) == Some(binding.1)
  {
  }

  /** A listed parameter yields (key, value) exactly when its name translates to key and value is its value. */
  lemma PathWriteOf(path: string, naming: Option<string>, parameter: Parameter, binding: Binding)
    ensures binding in PathWrite(path, naming)(parameter) <==>
      EnvironmentVariable(parameter.name, Some(path), naming) == Some(binding.0) && parameter.value == binding.1
  {
  }

  /** The describe loop: pages are requested until no token comes back or a call fails. */
  method DescribeParameterNames(pager: Pager<string>) returns (names: seq<string>)
    ensures names == Delivered(pager)
  {
    names := [];
    var token: nat := 0;
    var more := true;
    while more
      invariant token <= Served(pager)
      invariant more ==> token < |Pages(pager)|
      invariant !more ==> token == Served(pager)
      invariant names == Flatten(Pages(pager)[..token])
      decreases |Pages(pager)| - token, more
    {
      match Response(pager, token)
      case None =>
        more := false;
      case Some((page, next)) =>
        names := names + page;
        assert Pages(pager)[..token + 1][..token] == Pages(pager)[..token];
        more := next.Some?;
        token := token + 1;
    }
  }

  /** One step of the flat listing's second loop: translate the name, fetch its value, bind if both succeed. */
  method BindName(context: Context, name: string, getParameter: string -> Option<string>)
    modifies context
    ensures context.env == ApplyWrites(old(context.env), FlatWrite(getParameter)(name))
  {
    var key := ToEnvironmentVariableFlat(name);
    var value := getParameter(name);
    if key.Some? && value.Some? {
      context.Env(key.value, value.value);
      ApplyWritesSnoc(old(context.env), [], (key.value, value.value));
    }
  }

  /** The second loop of the flat listing: fetch and bind each collected name in turn. */
  method BindNames(context: Context, names: seq<string>, getParameter: string -> Option<string>)
    modifies context
    ensures context.env == ApplyWrites(old(context.env), Writes(names, FlatWrite(getParameter)))
  {
    ghost var write := FlatWrite(getParameter);
    var i := 0;
    while i < |names|
      invariant 0 <= i <= |names|
      invariant context.env == ApplyWrites(old(context.env), Writes(names[..i], write))
    {
      ghost var done := Writes(names[..i], write);
      BindName(context, names[i], getParameter);
      WritesStep(names, i, write);
      ApplyWritesAppend(old(context.env), done, write(names[i]));
      i := i + 1;
    }
    assert names[..|names|] == names;
  }

  /** buildEnvVarsWithParameters: collect names, then bind each name whose value can be fetched. */
  method BuildEnvVarsWithParameters(context: Context, provider: Provider, namePrefixes: string)
    modifies context
    ensures context.env == FlatBindings(old(context.env), provider, namePrefixes)
  {
    var names := DescribeParameterNames(provider.describeParameters(PrefixFilter(namePrefixes)));
    BindNames(context, names, provider.getParameter);
  }

  /** One step of a page: translate the parameter's name and bind it if that succeeds. */
  method BindParameter(context: Context, parameter: Parameter, path: string, naming: Option<string>)
    modifies context
    ensures context.env == ApplyWrites(old(context.env), PathWrite(path, naming)(parameter))
  {
    var key := ToEnvironmentVariable(parameter.name, Some(path), naming);
    if key.Some? {
      context.Env(key.value, parameter.value);
      ApplyWritesSnoc(old(context.env), [], (key.value, parameter.value));
    }
  }

  /** The body of the paging loop: bind each parameter of one page, skipping those whose name does not translate. */
  method BindPage(context: Context, page: seq<Parameter>, path: string, naming: Option<string>)
    modifies context
    ensures context.env == ApplyWrites(old(context.env), Writes(page, PathWrite(path, naming)))
  {
    ghost var write := PathWrite(path, naming);
    var j := 0;
    while j < |page|
      invariant 0 <= j <= |page|
      invariant context.env == ApplyWrites(old(context.env), Writes(page[..j], write))
    {
      ghost var done := Writes(page[..j], write);
      BindParameter(context, page[j], path, naming);
      WritesStep(page, j, write);
      ApplyWritesAppend(old(context.env), done, write(page[j]));
      j := j + 1;
    }
    assert page[..|page|] == page;
  }

  /** buildEnvVarsWithParametersByPath: bind each parameter of each page as the page arrives. */
  method BuildEnvVarsWithParametersByPath(context: Context, provider: Provider, path: string, recursive: bool,
                                          naming: Option<string>)
    modifies context
    ensures context.env == PathBindings(old(context.env), provider, path, recursive, naming)
  {
    var pager := provider.getParametersByPath(path, recursive);
    ghost var write := PathWrite(path, naming);
    var token: nat := 0;
    var more := true;
    while more
      invariant token <= Served(pager)
      invariant more ==> token < |Pages(pager)|
      invariant !more ==> token == Served(pager)
      invariant context.env == ApplyWrites(old(context.env), Writes(Flatten(Pages(pager)[..token]), write))
      decreases |Pages(pager)| - token, more
    {
      match Response(pager, token)
      case None =>
        more := false;
      case Some((page, next)) =>
        ghost var before := Flatten(Pages(pager)[..token]);
        BindPage(context, page, path, naming);
        WritesAppend(before, page, write);
        ApplyWritesAppend(old(context.env), Writes(before, write), Writes(page, write));
        assert Pages(pager)[..token + 1][..token] == Pages(pager)[..token];
        more := next.Some?;
        token := token + 1;
    }
  }

  /** buildEnvVars: dispatch on whether the path is empty. */
  method BuildEnvVars(context: Context, provider: Provider, path: Option<string>, recursive: bool,
                      naming: Option<string>, namePrefixes: string)
    modifies context
    ensures context.env == EnvVars(old(context.env), provider, path, recursive, naming, namePrefixes)
  {
    if IsEmpty(path) {
      BuildEnvVarsWithParameters(context, provider, namePrefixes);
    } else {
      BuildEnvVarsWithParametersByPath(context, provider, path.value, recursive, naming);
    }
  }

  /** A key the flat listing adds comes from a delivered name that translates to it and whose value was fetched. */
  lemma FlatKeySource(env: map<string, string>, provider: Provider, namePrefixes: string, key: string)
    requires key in FlatBindings(env, provider, namePrefixes) && key !in env
    ensures exists name ::
              name in Delivered(provider.describeParameters(PrefixFilter(namePrefixes))) &&
              EnvironmentVariable(name, None, None) == Some(key) && provider.getParameter(name).Some?
  {
    var names := Delivered(provider.describeParameters(PrefixFilter(namePrefixes)));
    var write := FlatWrite(provider.getParameter);
    var writes := Writes(names, write);
    ApplyWritesKeys(env, writes, key);
    var i :| 0 <= i < |writes| && writes[i].0 == key;
    WritesMembership(names, write, writes[i]);
    var j :| 0 <= j < |names| && writes[i] in write(names[j]);
    FlatWriteOf(provider.getParameter, names[j], writes[i]);
    assert names[j] in names;
  }

  /** Every delivered name that translates and whose value is fetched is bound by the flat listing. */
  lemma FlatNameBound(env: map<string, string>, provider: Provider, namePrefixes: string, name: string)
    requires name in Delivered(provider.describeParameters(PrefixFilter(namePrefixes)))
    requires EnvironmentVariable(name, None, None).Some? && provider.getParameter(name).Some?
    ensures EnvironmentVariable(name, None, None).value in FlatBindings(env, provider, namePrefixes)
  {
    var names := Delivered(provider.describeParameters(PrefixFilter(namePrefixes)));
    var write := FlatWrite(provider.getParameter);
    var writes := Writes(names, write);
    var binding := (EnvironmentVariable(name, None, None).value, provider.getParameter(name).value);
    FlatWriteOf(provider.getParameter, name, binding);
    WritesMembership(names, write, binding);
    var k :| 0 <= k < |writes| && writes[k] == binding;
    ApplyWritesKeys(env, writes, binding.0);
  }

  /** After the flat listing a key is bound exactly when it was bound before or a delivered name
      with a fetched value translates to it. */
  lemma FlatBindingKeys(env: map<string, string>, provider: Provider, namePrefixes: string, key: string)
    ensures key in FlatBindings(env, provider, namePrefixes) <==>
      key in env ||
      exists name :: name in Delivered(provider.describeParameters(PrefixFilter(namePrefixes))) &&
        EnvironmentVariable(name, None, None) == Some(key) && provider.getParameter(name).Some?
  {
    if key in FlatBindings(env, provider, namePrefixes) && key !in env {
      FlatKeySource(env, provider, namePrefixes, key);
    }
    if name :| name in Delivered(provider.describeParameters(PrefixFilter(namePrefixes))) &&
               EnvironmentVariable(name, None, None) == Some(key) && provider.getParameter(name).Some? {
      FlatNameBound(env, provider, namePrefixes, name);
    }
    if key in env {
      var writes := Writes(Delivered(provider.describeParameters(PrefixFilter(namePrefixes))), FlatWrite(provider.getParameter));
      ApplyWritesKeys(env, writes, key);
    }
  }

  /** A key the path listing adds comes from a delivered parameter whose name translates to it. */
  lemma PathKeySource(env: map<string, string>, provider: Provider, path: string, recursive: bool,
                      naming: Option<string>, key: string)
    requires key in PathBindings(env, provider, path, recursive, naming) && key !in env
    ensures exists parameter ::
              parameter in Delivered(provider.getParametersByPath(path, recursive)) &&
              EnvironmentVariable(parameter.name, Some(path), naming) == Some(key)
  {
    var parameters := Delivered(provider.getParametersByPath(path, recursive));
    var write := PathWrite(path, naming);
    var writes := Writes(parameters, write);
    ApplyWritesKeys(env, writes, key);
    var i :| 0 <= i < |writes| && writes[i].0 == key;
    WritesMembership(parameters, write, writes[i]);
    var j :| 0 <= j < |parameters| && writes[i] in write(parameters[j]);
    PathWriteOf(path, naming, parameters[j], writes[i]);
    assert parameters[j] in parameters;
  }

  /** Every delivered parameter whose name translates is bound by the path listing. */
  lemma PathParameterBound(env: map<string, string>, provider: Provider, path: string, recursive: bool,
                           naming: Option<string>, parameter: Parameter)
    requires parameter in Delivered(provider.getParametersByPath(path, recursive))
    requires EnvironmentVariable(parameter.name, Some(path), naming).Some?
    ensures EnvironmentVariable(parameter.name, Some(path), naming).value in PathBindings(env, provider, path, recursive, naming)
  {
    var parameters := Delivered(provider.getParametersByPath(path, recursive));
    var write := PathWrite(path, naming);
    var writes := Writes(parameters, write);
    var binding := (EnvironmentVariable(parameter.name, Some(path), naming).value, parameter.value);
    PathWriteOf(path, naming, parameter, binding);
    WritesMembership(parameters, write, binding);
    var k :| 0 <= k < |writes| && writes[k] == binding;
    ApplyWritesKeys(env, writes, binding.0);
  }

  /** After the path listing a key is bound exactly when it was bound before or a delivered
      parameter's name translates to it. */
  lemma PathBindingKeys(env: map<string, string>, provider: Provider, path: string, recursive: bool,
                        naming: Option<string>, key: string)
    ensures key in PathBindings(env, provider, path, recursive, naming) <==>
      key in env ||
      exists parameter :: parameter in Delivered(provider.getParametersByPath(path, recursive)) &&
        EnvironmentVariable(parameter.name, Some(path), naming) == Some(key)
  {
    if key in PathBindings(env, provider, path, recursive, naming) && key !in env {
      PathKeySource(env, provider, path, recursive, naming, key);
    }
    if parameter :| parameter in Delivered(provider.getParametersByPath(path, recursive)) &&
                    EnvironmentVariable(parameter.name, Some(path), naming) == Some(key) {
      PathParameterBound(env, provider, path, recursive, naming, parameter);
    }
    if key in env {
      var writes := Writes(Delivered(provider.getParametersByPath(path, recursive)), PathWrite(path, naming));
      ApplyWritesKeys(env, writes, key);
    }
  }

  /** A describe failure on the first call leaves the environment as it was. */
  lemma FlatDescribeFailsFirst(env: map<string, string>, provider: Provider, namePrefixes: string)
    requires provider.describeParameters(PrefixFilter(namePrefixes)).failAt == Some(0)
    ensures FlatBindings(env, provider, namePrefixes) == env
  {
  }

  /** A failed fetch skips only that name: of two described names, the second is still bound. */
  lemma FlatGetFailureSkipsName(env: map<string, string>, provider: Provider, namePrefixes: string,
                                first: string, second: string, key: string, value: string)
    requires Delivered(provider.describeParameters(PrefixFilter(namePrefixes))) == [first, second]
    requires provider.getParameter(first).None?
    requires provider.getParameter(second) == Some(value)
    requires EnvironmentVariable(second, None, None) == Some(key)
    ensures FlatBindings(env, provider, namePrefixes) == env[key := value]
  {
    var write := FlatWrite(provider.getParameter);
    assert write(first) == [];
    assert write(second) == [(key, value)];
    WritesAppend([first], [second], write);
    assert Writes([first], write) == [] by {
      WritesStep([first], 0, write);
    }
    assert Writes([second], write) == [(key, value)] by {
      WritesStep([second], 0, write);
    }
    assert [first] + [second] == [first, second];
    ApplyWritesSnoc(env, [], (key, value));
  }

  /** When the store honours the BeginsWith filter, every name the flat listing fetches matches a prefix. */
  lemma DescribedNamesMatchPrefixes(provider: Provider, namePrefixes: string, name: string)
    requires HonoursPrefixFilter(provider)
    requires name in Delivered(provider.describeParameters(PrefixFilter(namePrefixes)))
    ensures Matches(PrefixFilter(namePrefixes), name)
  {
    var pager := provider.describeParameters(PrefixFilter(namePrefixes));
    DeliveredPrefix(pager);
    assert name in Flatten(Pages(pager));
  }

  /** A failure on the first path page leaves the environment as it was. */
  lemma PathFirstPageFails(env: map<string, string>, provider: Provider, path: string, recursive: bool, naming: Option<string>)
    requires provider.getParametersByPath(path, recursive).failAt == Some(0)
    ensures PathBindings(env, provider, path, recursive, naming) == env
  {
  }

  /** A failure at page f stops paging, but every parameter of an earlier page whose name translates stays bound. */
  lemma PathFailureKeepsEarlierPages(env: map<string, string>, provider: Provider, path: string, recursive: bool,
                                     naming: Option<string>, f: nat, i: nat, j: nat)
    requires provider.getParametersByPath(path, recursive).failAt == Some(f)
    requires i < f && i < |provider.getParametersByPath(path, recursive).pages|
    requires j < |provider.getParametersByPath(path, recursive).pages[i]|
    requires EnvironmentVariable(provider.getParametersByPath(path, recursive).pages[i][j].name, Some(path), naming).Some?
    ensures EnvironmentVariable(provider.getParametersByPath(path, recursive).pages[i][j].name, Some(path), naming).value
      in PathBindings(env, provider, path, recursive, naming)
  {
    var pager := provider.getParametersByPath(path, recursive);
    var parameter := pager.pages[i][j];
    var served := Pages(pager)[..Served(pager)];
    assert parameter in served[i];
    FlattenMember(served, parameter);
    PathParameterBound(env, provider, path, recursive, naming, parameter);
  }

  /** Each branch ignores the other's settings: the path branch never uses namePrefixes, the flat branch
      never uses naming or recursive. */
  lemma DispatchIgnoresOtherBranch(env: map<string, string>, provider: Provider, path: Option<string>,
                                   recursive: bool, naming: Option<string>, namePrefixes: string,
                                   recursive': bool, naming': Option<string>, namePrefixes': string)
    ensures !IsEmpty(path) ==>
      EnvVars(env, provider, path, recursive, naming, namePrefixes) == EnvVars(env, provider, path, recursive, naming, namePrefixes')
    ensures IsEmpty(path) ==>
      EnvVars(env, provider, path, recursive, naming, namePrefixes) == EnvVars(env, provider, path, recursive', naming', namePrefixes)
  {
  }

  /** Running buildEnvVars twice against an unchanged store binds what running it once did. */
  lemma EnvVarsIdempotent(env: map<string, string>, provider: Provider, path: Option<string>, recursive: bool,
                          naming: Option<string>, namePrefixes: string)
    ensures EnvVars(EnvVars(env, provider, path, recursive, naming, namePrefixes), provider, path, recursive, naming, namePrefixes)
      == EnvVars(env, provider, path, recursive, naming, namePrefixes)
  {
    if IsEmpty(path) {
      var names := Delivered(provider.describeParameters(PrefixFilter(namePrefixes)));
      ApplyWritesIdempotent(env, Writes(names, FlatWrite(provider.getParameter)));
    } else {
      var parameters := Delivered(provider.getParametersByPath(path.value, recursive));
      ApplyWritesIdempotent(env, Writes(parameters, PathWrite(path.value, naming)));
    }
  }
}
