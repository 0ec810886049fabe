/**
  The mail configuration and the notification mail `create_mail_text` composes:
  its headers and its plain-text body (the HTML part and the MIME encoding are not modelled).
 */
module Reports {
  import opened Feeds

  /** The `smtp` section of the configuration; the port stays the string it is in the file. */
  datatype MailConfig = MailConfig(
    smtpHost: string,
    smtpPort: string,
    smtpProtocol: string,
    smtpUsername: string,
    smtpPassword: string,
    emailFrom: string,
    emailTo: string)

  /** One notification mail: the headers the program sets and the plain-text part. */
  datatype Mail = Mail(
    subject: string,
    replyTo: string,
    from: string,
    to: string,
    autoSubmitted: string,
    autoResponseSuppress: string,
    plainText: string)

  function Heading(feedTitle: string): string
  {
    "New entries for feed " + feedTitle
  }

  /** The plain-text line for one entry: quoted title, author, and url in parentheses. */
  function EntryLine(e: FeedEntry): string
  {
    "- \"" + e.title + "\" by " + e.author + " (" + e.url + ")\n"
  }

  function EntryLines(entries: seq<FeedEntry>): string
  {
    if entries == [] then ""
    else EntryLines(entries[..|entries| - 1]) + EntryLine(entries[|entries| - 1])
  }

  function PlainText(feedTitle: string, entries: seq<FeedEntry>): string
  {
    Heading(feedTitle) + "\n" + EntryLines(entries)
  }

  /** The mail for the feed titled `feedTitle`: sent from and replied to `email_from`, marked automated. */
  function ComposeMail(config: MailConfig, feedTitle: string, entries: seq<FeedEntry>): Mail
  {
    Mail(
      "[RSS Mailer] " + Heading(feedTitle),
      config.emailFrom,
      config.emailFrom,
      config.emailTo,
      "auto-generated",
      "All",
      PlainText(feedTitle, entries))
  }

  /** Writing one more entry's line extends the body by exactly that line. */
  lemma PlainTextStep(feedTitle: string, entries: seq<FeedEntry>, i: int)
    requires 0 <= i < |entries|
    ensures PlainText(feedTitle, entries[..i + 1]) == PlainText(feedTitle, entries[..i]) + EntryLine(entries[i])
  {
    assert entries[..i + 1][..i] == entries[..i];
    var head := Heading(feedTitle) + "\n";
    assert head + (EntryLines(entries[..i]) + EntryLine(entries[i])) == (head + EntryLines(entries[..i])) + EntryLine(entries[i]);
  }

  lemma {:induction false} EntryLinesAppend(a: seq<FeedEntry>, b: seq<FeedEntry>)
    ensures EntryLines(a + b) == EntryLines(a) + EntryLines(b)
    decreases |b|
  {
    if b == [] {
      assert a + b == a;
    } else {
      var b' := b[..|b| - 1];
      var last := b[|b| - 1];
      assert (a + b)[..|a + b| - 1] == a + b';
      assert (a + b)[|a + b| - 1] == last;
      calc {
        EntryLines(a + b);
        EntryLines(a + b') + EntryLine(last);
        { EntryLinesAppend(a, b'); }
        (EntryLines(a) + EntryLines(b')) + EntryLine(last);
        EntryLines(a) + (EntryLines(b') + EntryLine(last));
        EntryLines(a) + EntryLines(b);
      }
    }
  }

  /**
    The body is the heading line followed by one line per entry, in entry order:
    entry `i`'s line stands right after the lines of the entries before it.
   */
  lemma ComposeMailListsEntries(config: MailConfig, feedTitle: string, entries: seq<FeedEntry>, i: int)
    requires 0 <= i < |entries|
    ensures ComposeMail(config, feedTitle, entries).plainText
         == Heading(feedTitle) + "\n" + EntryLines(entries[..i]) + EntryLine(entries[i]) + EntryLines(entries[i + 1..])
  {
    assert entries == entries[..i] + [entries[i]] + entries[i + 1..];
    EntryLinesAppend(entries[..i] + [entries[i]], entries[i + 1..]);
    EntryLinesAppend(entries[..i], [entries[i]]);
    assert EntryLines([entries[i]]) == EntryLine(entries[i]) by {
      assert [entries[i]][..0] == [];
    }
  }
}
