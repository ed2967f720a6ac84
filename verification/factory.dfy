/** `NewMailer`: the choice between the mailer that sends nothing and the
    template mailer backed by an SMTP transport. Only the configuration the
    choice reads is modelled; the mailers' operations are not.
 */
module Factory {

  datatype Option<+T> = None | Some(value: T)

  /** The SMTP part of the instance configuration. */
  datatype SmtpConfiguration = SmtpConfiguration(
    host: string,
    port: int,
    user: string,
    pass: string,
    adminEmail: string)

  /** The instance configuration, reduced to what the factory reads. */
  datatype Configuration = Configuration(siteURL: string, smtp: SmtpConfiguration)

  /** The SMTP transport of the live mailer. */
  datatype MailmeMailer = MailmeMailer(
    host: string,
    port: int,
    user: string,
    pass: string,
    from: string,
    baseURL: string)

  /** The two mailer variants: one that sends nothing, and the live one that
      renders templates and hands them to its transport. */
  datatype Mailer =
    | NoopMailer
    | TemplateMailer(siteURL: string, config: Configuration, mailer: MailmeMailer)

  /** `NewMailer`: no SMTP host means the no-op mailer; otherwise the live
      mailer, its site URL and its transport's base URL both the configured
      site URL and its transport settings copied from the SMTP configuration. */
  function NewMailer(config: Configuration): (m: Mailer)
    ensures m.NoopMailer? <==> config.smtp.host == ""
    ensures m.TemplateMailer? ==>
              && m.siteURL == config.siteURL
              && m.config == config
              && m.mailer.baseURL == config.siteURL
              && m.mailer.host == config.smtp.host
              && m.mailer.port == config.smtp.port
              && m.mailer.user == config.smtp.user
              && m.mailer.pass == config.smtp.pass
              && m.mailer.from == config.smtp.adminEmail
  {
    if config.smtp.host == "" then NoopMailer
    else
      TemplateMailer(
        config.siteURL,
        config,
        MailmeMailer(
          config.smtp.host,
          config.smtp.port,
          config.smtp.user,
          config.smtp.pass,
          config.smtp.adminEmail,
          config.siteURL))
  }

  /** The SMTP settings a mailer sends with, read back from its transport;
      none for the no-op mailer. */
  function Transport(m: Mailer): (smtp: Option<SmtpConfiguration>)
    ensures smtp.Some? <==> m.TemplateMailer?
  {
    match m
    case NoopMailer => None
    case TemplateMailer(_, _, t) => Some(SmtpConfiguration(t.host, t.port, t.user, t.pass, t.from))
  }

  /** Round trip: the transport of a new mailer gives back exactly the SMTP
      configuration it was built from, and the live mailer never has an empty
      host; with no host there is no transport at all. */
  lemma NewMailerTransportRoundTrip(config: Configuration)
    ensures config.smtp.host != "" ==> Transport(NewMailer(config)) == Some(config.smtp)
    ensures config.smtp.host == "" ==> Transport(NewMailer(config)) == None
    ensures NewMailer(config).TemplateMailer? ==> NewMailer(config).mailer.host != ""
  {
  }
}
