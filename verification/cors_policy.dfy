/**
 * The API server's cross-origin policy: in the development environment every origin is
 * allowed; otherwise the origin function decides, accepting three exact web origins and any
 * Chrome extension. The configured `AllowedOrigins` list plays no part.
 */
module CorsPolicy {
  import Wrappers
  import Text
  import ServerConfig

  const LocalHttp: string := "http://localhost:3000"
  const LocalHttps: string := "https://localhost:3000"
  const Production: string := "https://quicklinks-zeta.vercel.app"
  const ChromeExtensionScheme: string := "chrome-extension://"

  /** The `AllowOriginFunc` of a non-development server. */
  predicate AllowOriginFunc(origin: string) {
    || origin == LocalHttp || origin == LocalHttps || origin == Production
    || Text.HasPrefix(origin, ChromeExtensionScheme)
  }

  /** Whether a request from `origin` passes the policy of a server configured with `cfg`. */
  predicate OriginAllowed(cfg: ServerConfig.Config, origin: string) {
    cfg.environment == ServerConfig.DefaultEnvironment || AllowOriginFunc(origin)
  }

  /** Outside development, exactly the three web origins and the Chrome extensions pass. */
  lemma AllowedOutsideDevelopment(cfg: ServerConfig.Config, origin: string)
    requires cfg.environment != ServerConfig.DefaultEnvironment
    ensures OriginAllowed(cfg, origin) <==>
      origin in [LocalHttp, LocalHttps, Production] || Text.HasPrefix(origin, ChromeExtensionScheme)
  {
  }

  /** The configured list of origins is not consulted. */
  lemma ListNotConsulted(cfg: ServerConfig.Config, origins: Wrappers.Option<seq<string>>, origin: string)
    ensures OriginAllowed(cfg, origin) == OriginAllowed(cfg.(allowedOrigins := origins), origin)
  {
  }

  /** There is no normalisation: a trailing slash makes a listed origin fail. */
  lemma TrailingSlashRejected(cfg: ServerConfig.Config)
    requires cfg.environment != ServerConfig.DefaultEnvironment
    ensures !OriginAllowed(cfg, LocalHttp + "/")
    ensures !OriginAllowed(cfg, Production + "/")
  {
    assert |LocalHttp + "/"| == 22 && |LocalHttps| == 22 && |Production| == 34;
    assert (LocalHttp + "/")[4] == ':' && LocalHttps[4] == 's';
    assert (LocalHttp + "/")[..19] != ChromeExtensionScheme by {
      assert (LocalHttp + "/")[0] == 'h' && ChromeExtensionScheme[0] == 'c';
    }
    assert (Production + "/")[..19] != ChromeExtensionScheme by {
      assert (Production + "/")[0] == 'h' && ChromeExtensionScheme[0] == 'c';
    }
    assert |Production + "/"| == 35 && |LocalHttp| == 21;
  }

  /** Every Chrome extension passes, whatever its id; other extension schemes do not. */
  lemma ExtensionsAllowed(cfg: ServerConfig.Config, id: string)
    ensures OriginAllowed(cfg, ChromeExtensionScheme + id)
    ensures cfg.environment != ServerConfig.DefaultEnvironment ==> !OriginAllowed(cfg, "moz-extension://" + id)
  {
    assert (ChromeExtensionScheme + id)[..|ChromeExtensionScheme|] == ChromeExtensionScheme;
    var m := "moz-extension://" + id;
    assert m[0] == 'm';
    assert |ChromeExtensionScheme| == 19;
    if |m| >= 19 {
      assert m[..19][0] == 'm' && ChromeExtensionScheme[0] == 'c';
    }
    assert m != LocalHttp && m != LocalHttps && m != Production by {
      assert LocalHttp[0] == 'h' && LocalHttps[0] == 'h' && Production[0] == 'h';
    }
  }

  /** An unset `ENVIRONMENT` means development, so every origin passes; one set to anything
      else, "" included, restricts origins. */
  lemma EnvironmentDecides(env: ServerConfig.Env, origin: string)
    requires ServerConfig.Load(env).Success?
    ensures ServerConfig.EnvironmentKey !in env ==> OriginAllowed(ServerConfig.Load(env).value, origin)
    ensures ServerConfig.EnvironmentKey in env && env[ServerConfig.EnvironmentKey] != ServerConfig.DefaultEnvironment ==>
      (OriginAllowed(ServerConfig.Load(env).value, origin) <==> AllowOriginFunc(origin))
  {
    ServerConfig.LoadedValues(env);
  }
}
