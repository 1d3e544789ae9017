/**
 * `CDKNamingUtils` (`packages/cdk-utils/src/naming/cdk-naming-utils.ts`):
 * environment-aware names and tags for deployment resources.
 *
 * Names are the parts joined with "-" and lower-cased. The clock read by
 * `bucketName` is the parameter `nowMs`.
 */
module Naming {
  import opened Wrappers
  import opened Text

  datatype NamingOptions = NamingOptions(
    environment: string,
    project: string,
    region: Option<string>,
    suffix: Option<string>)

  /** JavaScript truthiness of an optional string: present and not empty. */
  predicate Truthy(s: Option<string>) {
    s.Some? && |s.value| > 0
  }

  /** The optional parts that are truthy, in order. */
  function Optional(parts: seq<Option<string>>): (r: seq<string>)
    ensures |r| <= |parts|
    ensures forall i :: 0 <= i < |r| ==> |r[i]| > 0
  {
    if |parts| == 0 then []
    else if Truthy(parts[0]) then [parts[0].value] + Optional(parts[1..])
    else Optional(parts[1..])
  }

  /** "-" followed by the part when it is truthy, otherwise nothing. */
  function DashPart(s: Option<string>): string {
    if Truthy(s) then "-" + s.value else ""
  }

  // ---------------------------------------------------------------------------
  // Joining
  // ---------------------------------------------------------------------------

  lemma JoinCons(a: string, rest: seq<string>, sep: string)
    requires |rest| > 0
    ensures Join([a] + rest, sep) == a + sep + Join(rest, sep)
  {
    assert ([a] + rest)[1..] == rest;
  }

  /** Joining the fixed parts and then the optional ones is the fixed join followed by a dash part per optional part. */
  lemma {:induction false} JoinOptional(fixed: seq<string>, opts: seq<Option<string>>)
    requires |fixed| > 0
    ensures Join(fixed + Optional(opts), "-") == Join(fixed, "-") + DashParts(opts)
    decreases |opts|
  {
    if |opts| == 0 {
      assert fixed + Optional(opts) == fixed;
    } else {
      OptionalCons(fixed, opts);
      if Truthy(opts[0]) {
        var v := opts[0].value;
        JoinOptional(fixed + [v], opts[1..]);
        JoinSnoc(fixed, v);
        DashJoin(Join(fixed, "-"), v, DashParts(opts[1..]));
      } else {
        JoinOptional(fixed, opts[1..]);
      }
    }
  }

  /** The first optional part moves to the fixed parts when it is truthy, and drops out otherwise. */
  lemma OptionalCons(fixed: seq<string>, opts: seq<Option<string>>)
    requires |opts| > 0
    ensures Truthy(opts[0]) ==> fixed + Optional(opts) == (fixed + [opts[0].value]) + Optional(opts[1..])
    ensures !Truthy(opts[0]) ==> fixed + Optional(opts) == fixed + Optional(opts[1..])
  {
    var rest := Optional(opts[1..]);
    if Truthy(opts[0]) {
      assert Optional(opts) == [opts[0].value] + rest;
      AppendAssoc(fixed, [opts[0].value], rest);
    } else {
      assert Optional(opts) == [] + rest;
    }
  }

  lemma AppendAssoc<T>(a: seq<T>, b: seq<T>, c: seq<T>)
    ensures a + (b + c) == (a + b) + c
  {
  }

  lemma DashJoin(j: string, v: string, d: string)
    ensures j + "-" + v + d == j + ("-" + v + d)
  {
  }

  function DashParts(opts: seq<Option<string>>): string {
    if |opts| == 0 then "" else DashPart(opts[0]) + DashParts(opts[1..])
  }

  lemma {:induction false} JoinSnoc(parts: seq<string>, last: string)
    requires |parts| > 0
    ensures Join(parts + [last], "-") == Join(parts, "-") + "-" + last
    decreases |parts|
  {
    if |parts| == 1 {
      assert parts + [last] == [parts[0]] + [last];
      JoinCons(parts[0], [last], "-");
    } else {
      assert parts + [last] == [parts[0]] + (parts[1..] + [last]);
      JoinCons(parts[0], parts[1..] + [last], "-");
      JoinSnoc(parts[1..], last);
      JoinCons(parts[0], parts[1..], "-");
      assert parts == [parts[0]] + parts[1..];
    }
  }

  lemma Join4(a: string, b: string, c: string, d: string)
    ensures Join([a, b, c, d], "-") == a + "-" + b + "-" + c + "-" + d
  {
    JoinCons(a, [b, c, d], "-");
    JoinCons(b, [c, d], "-");
    JoinCons(c, [d], "-");
    assert [a, b, c, d] == [a] + [b, c, d];
    assert [b, c, d] == [b] + [c, d];
    assert [c, d] == [c] + [d];
  }

  lemma Join3(a: string, b: string, c: string)
    ensures Join([a, b, c], "-") == a + "-" + b + "-" + c
  {
    JoinCons(a, [b, c], "-");
    JoinCons(b, [c], "-");
    assert [a, b, c] == [a] + [b, c];
    assert [b, c] == [b] + [c];
  }

  // ---------------------------------------------------------------------------
  // resourceName and the typed names
  // ---------------------------------------------------------------------------

  /**
   * `resourceName`: project, environment, type and name, then the suffix
   * when it is truthy, joined with "-" and lower-cased.
   */
  function ResourceName(o: NamingOptions, resourceType: string, name: string): (r: string)
    ensures r == Lower(o.project + "-" + o.environment + "-" + resourceType + "-" + name + DashPart(o.suffix))
    ensures IsLowerCase(r)
  {
    var fixed := [o.project, o.environment, resourceType, name];
    var parts := fixed + Optional([o.suffix]);
    JoinOptional(fixed, [o.suffix]);
    Join4(o.project, o.environment, resourceType, name);
    LowerIsLowerCase(Join(parts, "-"));
    Lower(Join(parts, "-"))
  }

  /** The resource kinds with a typed naming method. */
  datatype ResourceKind = Stack | Lambda | Table | Api | Vpc | SecurityGroup | Role | Policy | LogGroup

  /** The type token each typed method passes to `resourceName`. */
  function Token(k: ResourceKind): string {
    match k
    case Stack => "stack"
    case Lambda => "lambda"
    case Table => "table"
    case Api => "api"
    case Vpc => "vpc"
    case SecurityGroup => "sg"
    case Role => "role"
    case Policy => "policy"
    case LogGroup => "log"
  }

  /** `stackName`, `lambdaName`, `tableName`, `apiName`, `vpcName`, `securityGroupName`, `roleName`, `policyName`. */
  function TypedName(o: NamingOptions, k: ResourceKind, name: string): (r: string)
    requires !k.LogGroup?
    ensures r == Lower(o.project + "-" + o.environment + "-") + Token(k) + Lower("-" + name + DashPart(o.suffix))
  {
    TokenIsLowerCase(k);
    LowerConcat(o.project + "-" + o.environment + "-", Token(k) + "-" + name + DashPart(o.suffix));
    LowerConcat(Token(k), "-" + name + DashPart(o.suffix));
    LowerOfLowerCase(Token(k));
    assert o.project + "-" + o.environment + "-" + Token(k) + "-" + name + DashPart(o.suffix)
        == (o.project + "-" + o.environment + "-") + (Token(k) + ("-" + name + DashPart(o.suffix)));
    ResourceName(o, Token(k), name)
  }

  lemma TokenIsLowerCase(k: ResourceKind)
    ensures IsLowerCase(Token(k))
  {
  }

  /**
   * Typed names never collide across kinds: with the same options and base
   * name, two different kinds give two different names.
   */
  lemma TypedNamesDistinct(o: NamingOptions, k1: ResourceKind, k2: ResourceKind, name: string)
    requires !k1.LogGroup? && !k2.LogGroup? && k1 != k2
    ensures TypedName(o, k1, name) != TypedName(o, k2, name)
  {
    var p := Lower(o.project + "-" + o.environment + "-");
    var q := Lower("-" + name + DashPart(o.suffix));
    var t1, t2 := Token(k1), Token(k2);
    assert t1 != t2;
    if p + t1 + q == p + t2 + q {
      MiddleCancel(p, t1, t2, q);
    }
  }

  lemma MiddleCancel(p: string, a: string, b: string, q: string)
    requires p + a + q == p + b + q
    ensures a == b
  {
    assert |a| == |b|;
    assert a == (p + a + q)[|p|..|p| + |a|];
    assert b == (p + b + q)[|p|..|p| + |b|];
  }

  /** `logGroupName`: the Lambda log-group prefix before the resource name of type "log". */
  function LogGroupName(o: NamingOptions, name: string): (r: string)
    ensures r == "/aws/lambda/" + ResourceName(o, Token(LogGroup), name)
    ensures r[..12] == "/aws/lambda/" && IsLowerCase(r)
  {
    var n := ResourceName(o, "log", name);
    LambdaPrefixed(n);
    "/aws/lambda/" + n
  }

  lemma LambdaPrefixed(n: string)
    requires IsLowerCase(n)
    ensures IsLowerCase("/aws/lambda/" + n) && ("/aws/lambda/" + n)[..12] == "/aws/lambda/"
  {
    var p := "/aws/lambda/";
    assert IsLowerCase(p) && |p| == 12;
    LowerCaseConcat(p, n);
  }

  /**
   * `bucketName`: project, environment and name, then the region and the
   * suffix when truthy, then the decimal clock reading, joined with "-" and
   * lower-cased; there is no type token.
   */
  function BucketName(o: NamingOptions, name: string, nowMs: nat): (r: string)
    ensures r == Lower(o.project + "-" + o.environment + "-" + name + DashPart(o.region) + DashPart(o.suffix)) + "-" + NatToString(nowMs)
    ensures IsLowerCase(r)
  {
    var digits := NatToString(nowMs);
    var parts := [o.project, o.environment, name] + Optional([o.region, o.suffix]) + [digits];
    BucketParts(o, name, digits);
    LowerKeepsClock(o.project + "-" + o.environment + "-" + name + DashPart(o.region) + DashPart(o.suffix), digits);
    Lower(Join(parts, "-"))
  }

  /** The parts of a bucket name joined: the fixed parts, a dash part per truthy option, then the clock reading. */
  lemma BucketParts(o: NamingOptions, name: string, digits: string)
    ensures Join([o.project, o.environment, name] + Optional([o.region, o.suffix]) + [digits], "-")
         == o.project + "-" + o.environment + "-" + name + DashPart(o.region) + DashPart(o.suffix) + "-" + digits
  {
    var fixed := [o.project, o.environment, name];
    JoinOptional(fixed, [o.region, o.suffix]);
    TwoDashParts(o.region, o.suffix);
    Join3(o.project, o.environment, name);
    JoinSnoc(fixed + Optional([o.region, o.suffix]), digits);
  }

  lemma TwoDashParts(a: Option<string>, b: Option<string>)
    ensures DashParts([a, b]) == DashPart(a) + DashPart(b)
  {
    assert [a, b][1..] == [b];
    assert [b][1..] == [];
    assert DashParts([b]) == DashPart(b) + "";
    assert DashPart(b) + "" == DashPart(b);
  }

  /** Lower-casing leaves a trailing dash and digits alone, and its result is lower-case. */
  lemma LowerKeepsClock(joined: string, digits: string)
    requires IsDigits(digits)
    ensures Lower(joined + "-" + digits) == Lower(joined) + "-" + digits
    ensures IsLowerCase(Lower(joined) + "-" + digits)
  {
    assert joined + "-" + digits == joined + ("-" + digits);
    LowerConcat(joined, "-" + digits);
    DigitsAreLowerCase("-" + digits);
    LowerOfLowerCase("-" + digits);
    LowerIsLowerCase(joined + "-" + digits);
  }

  lemma DigitsAreLowerCase(s: string)
    requires forall i :: 0 <= i < |s| ==> s[i] == '-' || '0' <= s[i] <= '9'
    ensures IsLowerCase(s)
  {
  }

  /** Bucket names made at different clock readings differ, whatever the options and base name. */
  lemma BucketNamesUnique(o: NamingOptions, name: string, t1: nat, t2: nat)
    requires t1 != t2
    ensures BucketName(o, name, t1) != BucketName(o, name, t2)
  {
    var p := Lower(o.project + "-" + o.environment + "-" + name + DashPart(o.region) + DashPart(o.suffix)) + "-";
    var d1, d2 := NatToString(t1), NatToString(t2);
    assert (p + d1)[|p|..] == d1 && (p + d2)[|p|..] == d2;
  }

  // ---------------------------------------------------------------------------
  // resourceTags
  // ---------------------------------------------------------------------------

  /** `resourceTags`: the three standard tags, each replaced by an additional tag of the same key. */
  function ResourceTags(o: NamingOptions, additional: map<string, string>): (r: map<string, string>)
    ensures r.Keys == {"Environment", "Project", "ManagedBy"} + additional.Keys
    ensures forall k :: k in additional ==> r[k] == additional[k]
    ensures "Environment" !in additional ==> r["Environment"] == o.environment
    ensures "Project" !in additional ==> r["Project"] == o.project
    ensures "ManagedBy" !in additional ==> r["ManagedBy"] == "CDK"
  {
    map["Environment" := o.environment, "Project" := o.project, "ManagedBy" := "CDK"] + additional
  }

  // ---------------------------------------------------------------------------
  // Environment classification
  // ---------------------------------------------------------------------------

  /** `isProduction`: the name is "prod" or "production", in any letter case. */
  predicate IsProduction(env: string): (r: bool)
    ensures r <==> SameIgnoringCase(env, "prod") || SameIgnoringCase(env, "production")
  {
    LowerMatches(env, "prod");
    LowerMatches(env, "production");
    Lower(env) == "prod" || Lower(env) == "production"
  }

  /** `isDevelopment`: the name is "dev" or "development", in any letter case. */
  predicate IsDevelopment(env: string): (r: bool)
    ensures r <==> SameIgnoringCase(env, "dev") || SameIgnoringCase(env, "development")
  {
    LowerMatches(env, "dev");
    LowerMatches(env, "development");
    Lower(env) == "dev" || Lower(env) == "development"
  }

  /** `isStaging`: the name is "staging" or "stage", in any letter case. */
  predicate IsStaging(env: string): (r: bool)
    ensures r <==> SameIgnoringCase(env, "staging") || SameIgnoringCase(env, "stage")
  {
    LowerMatches(env, "staging");
    LowerMatches(env, "stage");
    Lower(env) == "staging" || Lower(env) == "stage"
  }

  /** An environment name falls in at most one of the three classes. */
  lemma ClassesExclusive(env: string)
    ensures !(IsProduction(env) && IsDevelopment(env))
    ensures !(IsProduction(env) && IsStaging(env))
    ensures !(IsDevelopment(env) && IsStaging(env))
  {
  }

  /** Classification ignores case: a name and its lower-case form fall in the same classes. */
  lemma ClassesIgnoreCase(env: string)
    ensures IsProduction(Lower(env)) == IsProduction(env)
    ensures IsDevelopment(Lower(env)) == IsDevelopment(env)
    ensures IsStaging(Lower(env)) == IsStaging(env)
  {
    LowerIsLowerCase(env);
  }

  lemma LambdaText()
    ensures "rankiro" + "-" + "dev" + "-" + "lambda" + "-" + "api-handler" + DashPart(Some("test")) == "rankiro-dev-lambda-api-handler-test"
  {
    assert "rankiro" + "-" + "dev" + "-" == "rankiro-dev-";
    assert "rankiro-dev-" + "lambda" + "-" == "rankiro-dev-lambda-";
    assert "rankiro-dev-lambda-" + "api-handler" == "rankiro-dev-lambda-api-handler";
    assert DashPart(Some("test")) == "-test";
    assert "rankiro-dev-lambda-api-handler" + "-test" == "rankiro-dev-lambda-api-handler-test";
  }

  lemma LogText()
    ensures "rankiro" + "-" + "dev" + "-" + "log" + "-" + "api" + DashPart(Some("test")) == "rankiro-dev-log-api-test"
  {
    assert "rankiro" + "-" + "dev" + "-" == "rankiro-dev-";
    assert "rankiro-dev-" + "log" + "-" + "api" == "rankiro-dev-log-api";
    assert DashPart(Some("test")) == "-test";
    assert "rankiro-dev-log-api" + "-test" == "rankiro-dev-log-api-test";
  }

  lemma LogGroupText()
    ensures "/aws/lambda/" + "rankiro-dev-log-api-test" == "/aws/lambda/rankiro-dev-log-api-test"
  {
  }

  /** The resource-name scenario of the test suite, with its options. */
  lemma ResourceNameExample()
    ensures ResourceName(NamingOptions("dev", "rankiro", Some("us-east-1"), Some("test")), "lambda", "api-handler")
         == "rankiro-dev-lambda-api-handler-test"
  {
    var o := NamingOptions("dev", "rankiro", Some("us-east-1"), Some("test"));
    var s := "rankiro-dev-lambda-api-handler-test";
    assert ResourceName(o, "lambda", "api-handler") == Lower(s) by {
      LambdaText();
    }
    assert Lower(s) == s by {
      LowerOfLowerCase(s);
    }
  }

  /** The log-group scenario of the test suite. */
  lemma LogGroupExample()
    ensures LogGroupName(NamingOptions("dev", "rankiro", Some("us-east-1"), Some("test")), "api")
         == "/aws/lambda/rankiro-dev-log-api-test"
  {
    var o := NamingOptions("dev", "rankiro", Some("us-east-1"), Some("test"));
    var s := "rankiro-dev-log-api-test";
    assert ResourceName(o, "log", "api") == Lower(s) by {
      LogText();
    }
    assert Lower(s) == s by {
      LowerOfLowerCase(s);
    }
    assert LogGroupName(o, "api") == "/aws/lambda/" + s;
    LogGroupText();
  }

  /** A name without a suffix, and an empty suffix, which is falsy. */
  lemma NoSuffixExample()
    ensures ResourceName(NamingOptions("prod", "myapp", None, Some("")), "table", "users") == "myapp-prod-table-users"
  {
    var s := "myapp-prod-table-users";
    assert ResourceName(NamingOptions("prod", "myapp", None, Some("")), "table", "users") == Lower(s) by {
      NoSuffixText();
    }
    assert Lower(s) == s by {
      LowerOfLowerCase(s);
    }
  }

  lemma NoSuffixText()
    ensures "myapp" + "-" + "prod" + "-" + "table" + "-" + "users" + DashPart(Some("")) == "myapp-prod-table-users"
  {
    assert DashPart(Some("")) == "";
    assert "myapp" + "-" + "prod" + "-" == "myapp-prod-";
    assert "myapp-prod-" + "table" + "-" + "users" == "myapp-prod-table-users";
  }

  lemma LowerExample()
    ensures Lower("MyApp-PROD-API-UserService") == "myapp-prod-api-userservice"
  {
    var s := "MyApp-PROD-API-UserService";
    var t := "myapp-prod-api-userservice";
    assert forall i :: 0 <= i < |s| ==> LowerChar(s[i]) == t[i];
  }

  /** Upper-case options and arguments are lowered. */
  lemma UpperCaseExample()
    ensures ResourceName(NamingOptions("PROD", "MyApp", None, None), "API", "UserService") == "myapp-prod-api-userservice"
  {
    assert "MyApp" + "-" + "PROD" + "-" + "API" + "-" + "UserService" + DashPart(None) == "MyApp-PROD-API-UserService";
    LowerExample();
  }

  lemma ClassificationExamples()
    ensures IsProduction("PRODUCTION") && IsDevelopment("Dev") && IsStaging("STAGE")
    ensures !IsProduction("dev") && !IsStaging("production")
  {
    assert Lower("PRODUCTION") == "production";
    assert Lower("Dev") == "dev";
    assert Lower("STAGE") == "stage";
  }
}
