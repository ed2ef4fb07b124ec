/**
 * The client options that decide whether `Connect` may dial and with which credentials.  Each writes the client in
 * place; what loading a certificate or looking a policy up comes to is part of the option here.
 */
module ClientOptions {
  import opened Wrappers

  datatype Error = ReadFailed | ParseFailed | KeyPairFailed | UnknownPolicy(policy: string)

  /** A TLS configuration: the authority it trusts, and the certificate it presents, if any. */
  datatype TLS = TLS(roots: nat, certificate: Option<nat>)

  datatype Loaded = Loaded(value: nat) | Unreadable | Unparsable

  datatype ClientOption =
    | WithInsecure
    | WithTLS(ca: Loaded)
    | WithMutualTLS(pair: Option<nat>, ca: Loaded)
    | WithLoadBalancing(policy: string, registered: bool)

  datatype Settings = Settings(configErr: Option<Error>, tls: Option<TLS>, insecure: bool, policies: seq<string>)

  const DEFAULTS := Settings(None, None, false, [])

  /** What an option says about credentials: nothing, plain text, TLS, or a failure to set TLS up. */
  datatype Credentials = Silent | PlainText | Secure(tls: TLS) | Failure(error: Error)

  function CredentialsOf(o: ClientOption): Credentials {
    match o
    case WithInsecure => PlainText
    case WithTLS(Loaded(ca)) => Secure(TLS(ca, None))
    case WithTLS(Unreadable) => Failure(ReadFailed)
    case WithTLS(Unparsable) => Failure(ParseFailed)
    case WithMutualTLS(None, _) => Failure(KeyPairFailed)
    case WithMutualTLS(Some(pair), Loaded(ca)) => Secure(TLS(ca, Some(pair)))
    case WithMutualTLS(Some(_), Unreadable) => Failure(ReadFailed)
    case WithMutualTLS(Some(_), Unparsable) => Failure(ParseFailed)
    case WithLoadBalancing(_, _) => Silent
  }

  /** What an option reports to `Connect`: nothing new, success, or an error. */
  datatype Report = Quiet | Fine | Bad(error: Error)

  function ReportOf(o: ClientOption): Report {
    match CredentialsOf(o)
    case PlainText => Fine
    case Secure(_) => Fine
    case Failure(e) => Bad(e)
    case Silent =>
      if !o.WithLoadBalancing? || o.policy == "" then Quiet
      else if o.registered then Fine
      else Bad(UnknownPolicy(o.policy))
  }

  /** An option's effect on the settings, by what it reports and what it says about credentials. */
  function Applied(s: Settings, o: ClientOption): Settings {
    Settings(
      match ReportOf(o) case Quiet => s.configErr case Fine => None case Bad(e) => Some(e),
      match CredentialsOf(o) case Silent => s.tls case Secure(tls) => Some(tls) case _ => None,
      s.insecure || o.WithInsecure?,
      s.policies + if o.WithLoadBalancing? && ReportOf(o) == Fine then [o.policy] else [])
  }

  function ApplyAll(s: Settings, opts: seq<ClientOption>): Settings {
    if opts == [] then s else Applied(ApplyAll(s, opts[..|opts| - 1]), opts[|opts| - 1])
  }

  /**
   * What `Connect` does with the settings: it returns the configuration error, or it dials, with TLS or in plain text
   * (`None`), and warns about plain text nobody asked for.
   */
  datatype Attempt = Refused(error: Error) | Dialled(transport: Option<TLS>, warned: bool)

  function Attempted(s: Settings): Attempt {
    match s.configErr
    case Some(e) => Refused(e)
    case None => Dialled(s.tls, s.tls == None && !s.insecure)
  }

  /** The client with the fields the options write. */
  class Client {
    var configErr: Option<Error>
    var tlsConfig: Option<TLS>
    var insecureCreds: bool
    var policies: seq<string>

    function View(): Settings
      reads this
    {
      Settings(configErr, tlsConfig, insecureCreds, policies)
    }

    /** The part the two TLS options share: read the authority, parse it, and only then configure TLS. */
    method LoadTLS(certificate: Option<nat>, ca: Loaded)
      modifies this`configErr, this`tlsConfig
      ensures match ca
              case Loaded(roots) => configErr == None && tlsConfig == Some(TLS(roots, certificate))
              case Unreadable => configErr == Some(ReadFailed) && tlsConfig == None
              case Unparsable => configErr == Some(ParseFailed) && tlsConfig == None
    {
      if ca.Unreadable? {
        configErr := Some(ReadFailed);
        tlsConfig := None;
        return;
      }
      if ca.Unparsable? {
        configErr := Some(ParseFailed);
        tlsConfig := None;
        return;
      }
      configErr := None;
      tlsConfig := Some(TLS(ca.value, certificate));
    }

    method Apply(o: ClientOption)
      modifies this
      ensures View() == Applied(old(View()), o)
    {
      match o
      case WithInsecure =>
        insecureCreds := true;
        tlsConfig := None;
        configErr := None;
      case WithTLS(ca) =>
        LoadTLS(None, ca);
      case WithMutualTLS(pair, ca) =>
        if pair == None {
          configErr := Some(KeyPairFailed);
          tlsConfig := None;
          return;
        }
        LoadTLS(pair, ca);
      case WithLoadBalancing(policy, registered) =>
        if policy == "" {
          return;
        }
        if !registered {
          configErr := Some(UnknownPolicy(policy));
          return;
        }
        configErr := None;
        policies := policies + [policy];
    }

    constructor (opts: seq<ClientOption>)
      ensures View() == ApplyAll(DEFAULTS, opts)
    {
      configErr, tlsConfig, insecureCreds, policies := None, None, false, [];
      new;
      var i := 0;
      while i < |opts|
        invariant 0 <= i <= |opts|
        invariant View() == ApplyAll(DEFAULTS, opts[..i])
      {
        assert opts[..i + 1][..i] == opts[..i];
        Apply(opts[i]);
        i := i + 1;
      }
      assert opts[..i] == opts;
    }

    /** `Connect` up to the dial. */
    method Connect() returns (r: Attempt)
      ensures r == Attempted(View())
    {
      if configErr != None {
        return Refused(configErr.value);
      }
      if tlsConfig != None {
        return Dialled(tlsConfig, false);
      } else if insecureCreds {
        return Dialled(None, false);
      }
      return Dialled(None, true);
    }
  }

  /** The option at `i` is the last of the list that reports anything. */
  ghost predicate LastReport(opts: seq<ClientOption>, i: int) {
    0 <= i < |opts| && !ReportOf(opts[i]).Quiet? && forall j :: i < j < |opts| ==> ReportOf(opts[j]).Quiet?
  }

  /** The option at `i` is the last that says anything about credentials. */
  ghost predicate LastCredentials(opts: seq<ClientOption>, i: int) {
    0 <= i < |opts| && !CredentialsOf(opts[i]).Silent? && forall j :: i < j < |opts| ==> CredentialsOf(opts[j]).Silent?
  }

  lemma {:induction false} ErrorIsLast(s: Settings, opts: seq<ClientOption>)
    ensures forall i :: LastReport(opts, i) ==>
              ApplyAll(s, opts).configErr == (match ReportOf(opts[i]) case Bad(e) => Some(e) case _ => None)
    ensures (forall i :: 0 <= i < |opts| ==> ReportOf(opts[i]).Quiet?) ==> ApplyAll(s, opts).configErr == s.configErr
  {
    hide ReportOf, CredentialsOf;
    if opts != [] {
      var n := |opts| - 1;
      ErrorIsLast(s, opts[..n]);
      assert ApplyAll(s, opts) == Applied(ApplyAll(s, opts[..n]), opts[n]);
      hide ApplyAll;
      forall i | LastReport(opts, i)
        ensures ApplyAll(s, opts).configErr == (match ReportOf(opts[i]) case Bad(e) => Some(e) case _ => None)
      {
        if i < n {
          assert LastReport(opts[..n], i);
        }
      }
    }
  }

  lemma {:induction false} TLSIsLast(s: Settings, opts: seq<ClientOption>)
    ensures forall i :: LastCredentials(opts, i) ==>
              ApplyAll(s, opts).tls ==
                  (match CredentialsOf(opts[i]) case Secure(tls) => Some(tls) case _ => None)
    ensures (forall i :: 0 <= i < |opts| ==> CredentialsOf(opts[i]).Silent?) ==> ApplyAll(s, opts).tls == s.tls
  {
    hide ReportOf, CredentialsOf;
    if opts != [] {
      var n := |opts| - 1;
      TLSIsLast(s, opts[..n]);
      assert ApplyAll(s, opts) == Applied(ApplyAll(s, opts[..n]), opts[n]);
      hide ApplyAll;
      forall i | LastCredentials(opts, i)
        ensures ApplyAll(s, opts).tls ==
            (match CredentialsOf(opts[i]) case Secure(tls) => Some(tls) case _ => None)
      {
        if i < n {
          assert LastCredentials(opts[..n], i);
        }
      }
    }
  }

  lemma LastExists(opts: seq<ClientOption>)
    ensures (exists i :: LastReport(opts, i)) || forall i :: 0 <= i < |opts| ==> ReportOf(opts[i]).Quiet?
    ensures (exists i :: LastCredentials(opts, i)) || forall i :: 0 <= i < |opts| ==> CredentialsOf(opts[i]).Silent?
  {
    if opts != [] {
      var n := |opts| - 1;
      LastExists(opts[..n]);
      if !ReportOf(opts[n]).Quiet? {
        assert LastReport(opts, n);
      } else if i :| LastReport(opts[..n], i) {
        assert LastReport(opts, i);
      }
      if !CredentialsOf(opts[n]).Silent? {
        assert LastCredentials(opts, n);
      } else if i :| LastCredentials(opts[..n], i) {
        assert LastCredentials(opts, i);
      }
    }
  }

  lemma {:induction false} InsecureIff(opts: seq<ClientOption>)
    ensures ApplyAll(DEFAULTS, opts).insecure <==> WithInsecure in opts
  {
    if opts != [] {
      var n := |opts| - 1;
      assert opts == opts[..n] + [opts[n]];
      InsecureIff(opts[..n]);
    }
  }

  /**
   * `Connect` dials exactly when the last option that reported anything succeeded or none did, and returns that
   * option's error otherwise.  It uses TLS exactly as the last credential option, if that one succeeded, set it up:
   * never a configuration older than a failure.  It warns about plain text unless `WithInsecure` was given somewhere.
   */
  ghost predicate Decided(opts: seq<ClientOption>, r: Attempt) {
    match r
    case Refused(e) => exists i :: LastReport(opts, i) && ReportOf(opts[i]) == Bad(e)
    case Dialled(transport, warned) =>
      && (forall i :: LastReport(opts, i) ==> ReportOf(opts[i]).Fine?)
      && (forall tls :: transport == Some(tls) <==>
          exists i :: LastCredentials(opts, i) && CredentialsOf(opts[i]) == Secure(tls))
      && (warned <==> transport == None && WithInsecure !in opts)
  }

  lemma {:induction false} LastWriterDecides(opts: seq<ClientOption>)
    ensures forall r :: Decided(opts, r) <==> r == Attempted(ApplyAll(DEFAULTS, opts))
  {
    ErrorIsLast(DEFAULTS, opts);
    TLSIsLast(DEFAULTS, opts);
    LastExists(opts);
    InsecureIff(opts);
  }

  /** A client made with these options and then connected. */
  method NewThenConnect(opts: seq<ClientOption>) returns (r: Attempt)
    ensures Decided(opts, r)
  {
    LastWriterDecides(opts);
    var c := new Client(opts);
    r := c.Connect();
  }

  /** Credential failures and unknown policies are different errors. */
  lemma ErrorsDiffer(o: ClientOption)
    ensures var c, r := CredentialsOf(o), ReportOf(o);
            && (c.Failure? ==> r == Bad(c.error) && !c.error.UnknownPolicy?)
            && (c.Silent? && r.Bad? ==> r.error.UnknownPolicy?)
  {
  }

  /** Exactly the policy options say nothing about credentials, and their error names the policy. */
  lemma PolicyReports(o: ClientOption)
    ensures CredentialsOf(o).Silent? <==> o.WithLoadBalancing?
    ensures o.WithLoadBalancing? && ReportOf(o).Bad? ==> ReportOf(o) == Bad(UnknownPolicy(o.policy))
    ensures !o.WithLoadBalancing? && ReportOf(o).Bad? ==> CredentialsOf(o).Failure?
  {
  }

  /**
   * A failed TLS option is documented to make `Connect` return its error.  The last credential option, if it failed,
   * does exactly when nothing after it reports anything.
   */
  lemma {:induction false} FailureReportedIff(opts: seq<ClientOption>, i: int)
    requires LastCredentials(opts, i) && CredentialsOf(opts[i]).Failure?
    ensures Attempted(ApplyAll(DEFAULTS, opts)) == Refused(CredentialsOf(opts[i]).error)
       <==> forall j :: i < j < |opts| ==> ReportOf(opts[j]).Quiet?
  {
    hide ApplyAll, ReportOf, CredentialsOf;
    ErrorIsLast(DEFAULTS, opts);
    ErrorsDiffer(opts[i]);
    if forall j :: i < j < |opts| ==> ReportOf(opts[j]).Quiet? {
      assert LastReport(opts, i);
    } else {
      LastExists(opts);
      var j :| LastReport(opts, j);
      ErrorsDiffer(opts[j]);
    }
  }

  /** And it ends in plain text exactly when the last report, which then comes later, is a success. */
  lemma {:induction false} FailureDialsIff(opts: seq<ClientOption>, i: int)
    requires LastCredentials(opts, i) && CredentialsOf(opts[i]).Failure?
    ensures var r := Attempted(ApplyAll(DEFAULTS, opts));
            && (r.Dialled? ==> r.transport == None)
            && (r.Dialled? <==> exists j :: i < j && LastReport(opts, j) && ReportOf(opts[j]).Fine?)
  {
    ErrorIsLast(DEFAULTS, opts);
    TLSIsLast(DEFAULTS, opts);
    LastExists(opts);
    assert ReportOf(opts[i]).Bad?;
    forall j | LastReport(opts, j) ensures i <= j {
    }
  }

  /** So a load-balancing policy given after an unreadable certificate hides the failure. */
  lemma FailureHidden()
    ensures var opts := [WithTLS(Unreadable), WithLoadBalancing("round_robin", true)];
            Attempted(ApplyAll(DEFAULTS, opts)) == Dialled(None, true)
  {
  }

  /** And an unknown policy replaces the error by its own. */
  lemma FailureReplaced()
    ensures var opts := [WithTLS(Unreadable), WithLoadBalancing("bogus", false)];
            Attempted(ApplyAll(DEFAULTS, opts)) == Refused(UnknownPolicy("bogus"))
  {
  }

  /**
   * The error for an unknown policy is documented to be returned by `Connect` too.  That of the last policy option
   * that reports anything is, exactly when nothing after it reports: no credential option then succeeds or fails.
   */
  lemma {:induction false} PolicyReportedIff(opts: seq<ClientOption>, i: int)
    requires 0 <= i < |opts| && opts[i].WithLoadBalancing? && ReportOf(opts[i]).Bad?
    requires forall j :: i < j < |opts| && opts[j].WithLoadBalancing? ==> ReportOf(opts[j]).Quiet?
    ensures Attempted(ApplyAll(DEFAULTS, opts)) == Refused(UnknownPolicy(opts[i].policy))
       <==> forall j :: i < j < |opts| ==> ReportOf(opts[j]).Quiet?
  {
    PolicyReports(opts[i]);
    hide ApplyAll, ReportOf, CredentialsOf;
    ErrorIsLast(DEFAULTS, opts);
    if forall j :: i < j < |opts| ==> ReportOf(opts[j]).Quiet? {
      assert LastReport(opts, i);
    } else {
      LastExists(opts);
      var j :| LastReport(opts, j);
      ErrorsDiffer(opts[j]);
      PolicyReports(opts[j]);
    }
  }

  /** A later credential option that succeeds hides it, whichever it is. */
  lemma PolicyHidden()
    ensures var opts := [WithLoadBalancing("bogus", false), WithTLS(Loaded(1))];
            Attempted(ApplyAll(DEFAULTS, opts)) == Dialled(Some(TLS(1, None)), false)
  {
  }

  /** What `Connect` does if this option comes last. */
  function AttemptAfter(opts: seq<ClientOption>, o: ClientOption): Attempt {
    Attempted(ApplyAll(DEFAULTS, opts + [o]))
  }

  lemma OneMore(opts: seq<ClientOption>, o: ClientOption)
    ensures ApplyAll(DEFAULTS, opts + [o]) == Applied(ApplyAll(DEFAULTS, opts), o)
  {
    assert (opts + [o])[..|opts|] == opts;
  }

  /** A credential option that comes last decides alone, by its arguments. */
  lemma CredentialLast(opts: seq<ClientOption>, ca: Loaded, pair: nat)
    ensures AttemptAfter(opts, WithInsecure) == Dialled(None, false)
    ensures AttemptAfter(opts, WithTLS(ca)) ==
        if ca.Loaded? then Dialled(Some(TLS(ca.value, None)), false)
        else Refused(if ca.Unreadable? then ReadFailed else ParseFailed)
    ensures AttemptAfter(opts, WithMutualTLS(None, ca)) == Refused(KeyPairFailed)
    ensures AttemptAfter(opts, WithMutualTLS(Some(pair), ca)) ==
        if ca.Loaded? then Dialled(Some(TLS(ca.value, Some(pair))), false)
        else Refused(if ca.Unreadable? then ReadFailed else ParseFailed)
  {
    OneMore(opts, WithInsecure);
    OneMore(opts, WithTLS(ca));
    OneMore(opts, WithMutualTLS(None, ca));
    OneMore(opts, WithMutualTLS(Some(pair), ca));
    hide ApplyAll;
  }

  /** A policy leaves the credentials as they were: an empty one changes nothing, an unknown one is an error. */
  lemma PolicyLast(opts: seq<ClientOption>, policy: string, registered: bool)
    ensures ApplyAll(DEFAULTS, opts + [WithLoadBalancing(policy, registered)]) ==
        var before := ApplyAll(DEFAULTS, opts);
        if policy == "" then before
        else if registered then before.(configErr := None, policies := before.policies + [policy])
        else before.(configErr := Some(UnknownPolicy(policy)))
  {
    OneMore(opts, WithLoadBalancing(policy, registered));
    hide ApplyAll;
  }

  /** With no error kept, the client dials with the TLS it keeps, or in plain text, and warns unless that was asked. */
  lemma AttemptBySettings(s: Settings)
    ensures s.configErr == None && s.tls != None ==> Attempted(s) == Dialled(s.tls, false)
    ensures s.configErr == None && s.tls == None ==> Attempted(s) == Dialled(None, !s.insecure)
    ensures s.configErr != None ==> Attempted(s) == Refused(s.configErr.value)
    ensures Attempted(ApplyAll(DEFAULTS, [])) == Dialled(None, true)
  {
  }
}
