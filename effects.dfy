/**
  The run's effects on the world outside the process, as a trace of events:
  writing the cache file, and the steps of the SMTP session `send_mails` opens.
 */
module Effects {
  import opened Reports

  datatype Event =
    | Persist(snapshot: map<string, seq<string>>)
    | Connect(host: string, port: string, implicitTls: bool)
    | Ehlo
    | StartTls
    | Login(username: string, password: string)
    | SendMail(from: string, to: string, mail: Mail)
    | Quit

  /** Connect (encrypted from the start for "ssl"), greet, upgrade for "tls", log in. */
  function Opening(config: MailConfig): seq<Event>
  {
    [Connect(config.smtpHost, config.smtpPort, config.smtpProtocol == "ssl"), Ehlo]
      + (if config.smtpProtocol == "tls" then [StartTls] else [])
      + [Login(config.smtpUsername, config.smtpPassword)]
  }

  function Deliveries(config: MailConfig, mails: seq<Mail>): seq<Event>
  {
    seq(|mails|, i requires 0 <= i < |mails| => SendMail(config.emailFrom, config.emailTo, mails[i]))
  }

  /** The session `send_mails(mails)` holds with the server; none at all for no mails. */
  function SendTrace(config: MailConfig, mails: seq<Mail>): seq<Event>
  {
    if mails == [] then [] else Opening(config) + Deliveries(config, mails) + [Quit]
  }

  /** The mails a trace hands to the server, in the order it hands them over. */
  function SentMails(trace: seq<Event>): seq<Mail>
  {
    if trace == [] then []
    else
      var rest := SentMails(trace[..|trace| - 1]);
      match trace[|trace| - 1]
      case SendMail(_, _, m) => rest + [m]
      case _ => rest
  }

  /** Regrouping a trace of three parts; stated apart so that large proof contexts need not rediscover it. */
  lemma AppendAssociative(a: seq<Event>, b: seq<Event>, c: seq<Event>)
    ensures (a + b) + c == a + (b + c)
  {
  }

  lemma {:induction false} SentMailsAppend(a: seq<Event>, b: seq<Event>)
    ensures SentMails(a + b) == SentMails(a) + SentMails(b)
    decreases |b|
  {
    if b == [] {
      assert a + b == a;
    } else {
      var b' := b[..|b| - 1];
      assert (a + b)[..|a + b| - 1] == a + b';
      SentMailsAppend(a, b');
    }
  }

  lemma {:induction false} SentMailsNone(trace: seq<Event>)
    requires forall i :: 0 <= i < |trace| ==> !trace[i].SendMail?
    ensures SentMails(trace) == []
    decreases |trace|
  {
    if trace != [] {
      SentMailsNone(trace[..|trace| - 1]);
    }
  }

  lemma {:induction false} SentMailsOfDeliveries(config: MailConfig, mails: seq<Mail>)
    ensures SentMails(Deliveries(config, mails)) == mails
    decreases |mails|
  {
    if mails != [] {
      var init := mails[..|mails| - 1];
      SentMailsOfDeliveries(config, init);
      assert Deliveries(config, mails)[..|mails| - 1] == Deliveries(config, init);
    }
  }

  /** An empty batch opens no connection; any other batch does. */
  lemma SendTraceEmptyIff(config: MailConfig, mails: seq<Mail>)
    ensures SendTrace(config, mails) == [] <==> mails == []
    ensures mails != [] ==> SendTrace(config, mails)[0].Connect?
  {
  }

  /**
    "ssl" connects encrypted; "tls" connects plain, greets, then upgrades;
    anything else connects plain and never upgrades.
   */
  lemma SendTraceEncryption(config: MailConfig, mails: seq<Mail>)
    requires mails != []
    ensures var t := SendTrace(config, mails);
      && t[0] == Connect(config.smtpHost, config.smtpPort, config.smtpProtocol == "ssl")
      && t[1] == Ehlo
      && (StartTls in t <==> config.smtpProtocol == "tls")
      && (config.smtpProtocol == "tls" ==> t[2] == StartTls)
  {
    var t := SendTrace(config, mails);
    var d := Deliveries(config, mails);
    assert StartTls !in d by {
      forall i | 0 <= i < |d| ensures d[i] != StartTls { }
    }
    assert StartTls in t <==> StartTls in Opening(config);
  }

  /** The session hands the server exactly the batch, in list order. */
  lemma SendTraceDelivers(config: MailConfig, mails: seq<Mail>)
    ensures SentMails(SendTrace(config, mails)) == mails
  {
    if mails != [] {
      var o := Opening(config);
      var d := Deliveries(config, mails);
      SentMailsAppend(o + d, [Quit]);
      SentMailsAppend(o, d);
      SentMailsOfDeliveries(config, mails);
      SentMailsNone(o);
      SentMailsNone([Quit]);
    }
  }

  /** The login is the last step of the opening, and no other step of the session logs in. */
  lemma SendTraceLogin(config: MailConfig, mails: seq<Mail>)
    requires mails != []
    ensures var t := SendTrace(config, mails);
      var l := |Opening(config)| - 1;
      && 0 <= l < |t| && t[l] == Login(config.smtpUsername, config.smtpPassword)
      && forall i :: 0 <= i < |t| ==> (t[i].Login? ==> i == l) && (t[i].SendMail? ==> l < i)
  {
    var o := Opening(config);
    var d := Deliveries(config, mails);
    var t := SendTrace(config, mails);
    var l := |o| - 1;
    assert t == o + d + [Quit];
    assert forall j :: 0 <= j < l ==> !o[j].Login? && !o[j].SendMail? by {
      if config.smtpProtocol == "tls" {
        assert o == [o[0], Ehlo, StartTls, o[l]];
      } else {
        assert o == [o[0], Ehlo, o[l]];
      }
    }
    forall i | 0 <= i < |t| ensures (t[i].Login? ==> i == l) && (t[i].SendMail? ==> l < i) {
      if i < |o| {
        assert t[i] == o[i];
      } else if i < |o| + |d| {
        assert t[i] == d[i - |o|];
      } else {
        assert t[i] == Quit;
      }
    }
  }

  /**
    One connection, one login, every mail in list order from `email_from` to `email_to`,
    each sent after the login, and `quit` at the end.
   */
  lemma SendTraceSession(config: MailConfig, mails: seq<Mail>)
    requires mails != []
    ensures var t := SendTrace(config, mails);
      && SentMails(t) == mails
      && t[|t| - 1] == Quit
      && t[0] == Connect(config.smtpHost, config.smtpPort, config.smtpProtocol == "ssl")
      && (forall i :: 0 <= i < |t| && t[i].Connect? ==> i == 0)
      && (forall i :: 0 <= i < |t| && t[i].SendMail? ==> t[i].from == config.emailFrom && t[i].to == config.emailTo)
      && exists l :: 0 <= l < |t| && t[l] == Login(config.smtpUsername, config.smtpPassword) &&
           forall i :: 0 <= i < |t| ==> (t[i].Login? ==> i == l) && (t[i].SendMail? ==> l < i)
  {
    SendTraceDelivers(config, mails);
    SendTraceEncryption(config, mails);
    SendTraceLogin(config, mails);
    var t := SendTrace(config, mails);
    var l := |Opening(config)| - 1;
    assert 0 <= l < |t| && t[l] == Login(config.smtpUsername, config.smtpPassword);
  }
}
