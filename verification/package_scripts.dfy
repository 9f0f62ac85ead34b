/**
 * The CLI scripts a WildFly package contributes to the generated
 * configurations (`PackageScripts`): one list for standalone servers, one for
 * the domain and one for hosts, each built up by a builder, and the default
 * lists used for packages that declare none.
 */
module PackageScripts {
  import opened Base

  /**
   * A `Script`: the script file, an optional CLI address prefix, whether the
   * script is run once per profile (`variable`), its parameters and its line.
   */
  datatype Script = Script(path: Option<string>, prefix: Option<string>, variable: bool,
                           params: map<string, string>, line: Option<string>) {

    predicate HasPrefix() {
      prefix.Some?
    }

    predicate IsStatic() {
      !variable
    }

    predicate HasParameters() {
      |params| != 0
    }
  }

  /** `Script.Builder`: path, prefix and variability are fixed; parameters and the line are added. */
  class ScriptBuilder {
    const path: Option<string>
    const prefix: Option<string>
    const variable: bool
    var params: map<string, string>
    var line: Option<string>

    constructor (path: Option<string>, prefix: Option<string>, variable: bool)
      ensures this.path == path && this.prefix == prefix && this.variable == variable
      ensures params == map[] && line == None
    {
      this.path := path;
      this.prefix := prefix;
      this.variable := variable;
      params := map[];
      line := None;
    }

    /** `addParameter`: a name already present gets the new value. */
    method AddParameter(name: string, value: string)
      modifies this
      ensures params == old(params)[name := value]
      ensures name in old(params) ==> |params| == |old(params)|
      ensures line == old(line)
    {
      if |params| == 0 {
        params := map[name := value];
      } else {
        params := params[name := value];
      }
    }

    method SetLine(line: string)
      modifies this
      ensures this.line == Some(line) && params == old(params)
    {
      this.line := Some(line);
    }

    method Build() returns (s: Script)
      ensures s.path == path && s.prefix == prefix && s.variable == variable
      ensures s.params == params && s.line == line
      ensures s.HasPrefix() <==> prefix.Some?
      ensures s.IsStatic() <==> !variable
      ensures s.HasParameters() <==> params != map[]
    {
      s := Script(path, prefix, variable, params, line);
    }
  }

  /** `Script.builder(path, prefix, variable)`. */
  method ScriptBuilderOf(path: Option<string>, prefix: Option<string>, variable: bool) returns (b: ScriptBuilder)
    ensures fresh(b)
    ensures b.path == path && b.prefix == prefix && b.variable == variable
    ensures b.params == map[] && b.line == None
  {
    b := new ScriptBuilder(path, prefix, variable);
  }

  /** `Script.builder(path, prefix)`: the script is variable exactly when it has a prefix. */
  method ScriptBuilderWithPrefix(path: Option<string>, prefix: Option<string>) returns (b: ScriptBuilder)
    ensures fresh(b)
    ensures b.path == path && b.prefix == prefix && b.variable == prefix.Some?
    ensures b.params == map[] && b.line == None
  {
    b := ScriptBuilderOf(path, prefix, prefix.Some?);
  }

  /** `Script.builder(path, variable)`: no prefix. */
  method ScriptBuilderVariable(path: Option<string>, variable: bool) returns (b: ScriptBuilder)
    ensures fresh(b)
    ensures b.path == path && b.prefix == None && b.variable == variable
    ensures b.params == map[] && b.line == None
  {
    b := ScriptBuilderOf(path, None, variable);
  }

  /** `Script.builder(path)`: no prefix, static. */
  method ScriptBuilderFor(path: Option<string>) returns (b: ScriptBuilder)
    ensures fresh(b)
    ensures b.path == path && b.prefix == None && !b.variable
    ensures b.params == map[] && b.line == None
  {
    b := ScriptBuilderVariable(path, false);
  }

  /** The built script lists. */
  datatype Scripts = Scripts(standalone: seq<Script>, domain: seq<Script>, host: seq<Script>) {

    predicate HasStandalone() {
      |standalone| != 0
    }

    predicate HasDomain() {
      |domain| != 0
    }

    predicate HasHost() {
      |host| != 0
    }
  }

  /** `PackageScripts.Builder`: each `add*` appends to its own list. */
  class Builder {
    var standalone: seq<Script>
    var domain: seq<Script>
    var host: seq<Script>

    constructor ()
      ensures standalone == [] && domain == [] && host == []
    {
      standalone := [];
      domain := [];
      host := [];
    }

    method AddStandalone(script: Script)
      modifies this
      ensures standalone == old(standalone) + [script]
      ensures domain == old(domain) && host == old(host)
    {
      if |standalone| == 0 {
        standalone := [script];
      } else {
        standalone := standalone + [script];
      }
    }

    method AddDomain(script: Script)
      modifies this
      ensures domain == old(domain) + [script]
      ensures standalone == old(standalone) && host == old(host)
    {
      if |domain| == 0 {
        domain := [script];
      } else {
        domain := domain + [script];
      }
    }

    method AddHost(script: Script)
      modifies this
      ensures host == old(host) + [script]
      ensures standalone == old(standalone) && domain == old(domain)
    {
      if |host| == 0 {
        host := [script];
      } else {
        host := host + [script];
      }
    }

    method Build() returns (scripts: Scripts)
      ensures scripts.standalone == standalone && scripts.domain == domain && scripts.host == host
      ensures scripts.HasStandalone() <==> standalone != []
      ensures scripts.HasDomain() <==> domain != []
      ensures scripts.HasHost() <==> host != []
    {
      scripts := Scripts(standalone, domain, host);
    }
  }

  /** A script of the default lists: a file with no parameters and no line. */
  function Plain(path: string, prefix: Option<string>, variable: bool): Script {
    Script(Some(path), prefix, variable, map[], None)
  }

  /** The script `path` built with `Script.builder(path)` and nothing else. */
  method StaticScript(path: string) returns (s: Script)
    ensures s == Plain(path, None, false)
  {
    var b := ScriptBuilderFor(Some(path));
    s := b.Build();
  }

  /** The script `path` built with `Script.builder(path, true)`. */
  method VariableScript(path: string) returns (s: Script)
    ensures s == Plain(path, None, true)
  {
    var b := ScriptBuilderVariable(Some(path), true);
    s := b.Build();
  }

  /** The script `path` built with `Script.builder(path, prefix)`. */
  method PrefixedScript(path: string, prefix: string) returns (s: Script)
    ensures s == Plain(path, Some(prefix), true)
  {
    var b := ScriptBuilderWithPrefix(Some(path), Some(prefix));
    s := b.Build();
  }

  /** The script `path` built with `Script.builder(path, prefix, false)`. */
  method StaticPrefixedScript(path: string, prefix: string) returns (s: Script)
    ensures s == Plain(path, Some(prefix), false)
  {
    var b := ScriptBuilderOf(Some(path), Some(prefix), false);
    s := b.Build();
  }

  /**
   * `DEFAULT`: standalone runs main, standalone, the variable script and
   * profile; the domain runs main, domain, the variable script, and profile
   * under each profile's address; hosts run the host script under the
   * host's address, statically.
   */
  method Default() returns (scripts: Scripts)
    ensures scripts.standalone == [Plain("main.cli", None, false), Plain("standalone.cli", None, false),
                                   Plain("variable.cli", None, true), Plain("profile.cli", None, false)]
    ensures scripts.domain == [Plain("main.cli", None, false), Plain("domain.cli", None, false),
                               Plain("variable.cli", None, true),
                               Plain("profile.cli", Some("/profile=$profile"), true)]
    ensures scripts.host == [Plain("host.cli", Some("/host=${host:master}"), false)]
  {
    var builder := new Builder();
    var main := StaticScript("main.cli");
    var standalone := StaticScript("standalone.cli");
    var variable := VariableScript("variable.cli");
    var profile := StaticScript("profile.cli");
    var domain := StaticScript("domain.cli");
    var profiles := PrefixedScript("profile.cli", "/profile=$profile");
    var host := StaticPrefixedScript("host.cli", "/host=${host:master}");
    builder.AddStandalone(main);
    builder.AddStandalone(standalone);
    builder.AddStandalone(variable);
    builder.AddStandalone(profile);
    builder.AddDomain(main);
    builder.AddDomain(domain);
    builder.AddDomain(variable);
    builder.AddDomain(profiles);
    builder.AddHost(host);
    scripts := builder.Build();
  }
}
