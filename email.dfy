/**
 * EmailServiceImpl: the guard clauses of the two send methods and the
 * argument preparation of the notification e-mail (defaults, the message
 * tail, truncation, '%' escaping, and whether the "View Full Post" button is
 * shown). The HTML templates themselves and the mail API are not modelled;
 * the API is represented by the list of e-mails it accepted.
 */
module EmailService {
  import opened Wrappers
  import opened JavaText

  const OtpEmailSubject: string := "Your OTP for Xplore Registration"
  const DefaultAvatarUrl: string := "https://res.cloudinary.com/dvsutdpx2/image/upload/v1732181213/ryi6ouf4e0mwcgz1tcxx.png"
  const MaxPostContentLength: nat := 150

  // ---------------------------------------------------------------------------
  // getMsg: drop the first word, keep " " + the rest

  /** Index of the first `\s` character, if any. */
  function FirstRegexSpace(s: string): (r: Option<nat>)
    ensures r.Some? ==> r.value < |s| && IsRegexSpace(s[r.value])
    ensures forall i :: 0 <= i < |s| && (r.None? || i < r.value) ==> !IsRegexSpace(s[i])
  {
    if s == [] then None
    else if IsRegexSpace(s[0]) then Some(0)
    else match FirstRegexSpace(s[1..])
         case None => None
         case Some(k) => Some(k + 1)
  }

  /** End of the run of `\s` characters that starts at `i` (the greedy match of `\s+`). */
  function SpaceRunEnd(s: string, i: nat): (e: nat)
    requires i <= |s|
    ensures i <= e <= |s|
    ensures forall k :: i <= k < e ==> IsRegexSpace(s[k])
    ensures e < |s| ==> !IsRegexSpace(s[e])
    decreases |s| - i
  {
    if i < |s| && IsRegexSpace(s[i]) then SpaceRunEnd(s, i + 1) else i
  }

  /**
   * `getMsg`: "" for a blank string; otherwise `str.split("\\s+", 2)` and
   * " " + the second part when there is one. The split's first match is the
   * first run of `\s` characters; a run at index 0 yields an empty first part.
   */
  function GetMsg(str: Option<string>): (r: string)
    ensures r == [] || r[0] == ' '
  {
    if !HasText(str) then ""
    else match FirstRegexSpace(str.value)
         case None => ""
         case Some(i) => " " + str.value[SpaceRunEnd(str.value, i)..]
  }

  /** A blank or missing message has no tail. */
  lemma GetMsgBlank(str: Option<string>)
    requires !HasText(str)
    ensures GetMsg(str) == ""
  {
  }

  /** A single word (no `\s` character) has no tail. */
  lemma GetMsgSingleToken(s: string)
    requires forall i :: 0 <= i < |s| ==> !IsRegexSpace(s[i])
    ensures GetMsg(Some(s)) == ""
  {
    if HasText(Some(s)) {
      assert FirstRegexSpace(s) == None;
    }
  }

  /**
   * `word + spaces + rest`, where `word` has no `\s`, `spaces` is a non-empty
   * run of `\s` and `rest` does not start with one, yields " " + rest.
   */
  lemma GetMsgTail(word: string, spaces: string, rest: string)
    requires forall i :: 0 <= i < |word| ==> !IsRegexSpace(word[i])
    requires |spaces| > 0 && forall i :: 0 <= i < |spaces| ==> IsRegexSpace(spaces[i])
    requires rest != [] ==> !IsRegexSpace(rest[0])
    requires HasText(Some(word + spaces + rest))
    ensures GetMsg(Some(word + spaces + rest)) == " " + rest
  {
    var s := word + spaces + rest;
    assert s[|word|] == spaces[0];
    assert FirstRegexSpace(s) == Some(|word|);
    SpaceRunAcross(s, |word|, |word| + |spaces|);
    assert s[|word| + |spaces|..] == rest;
  }

  /** A run of `\s` from `i` to `j` not followed by one ends at `j`. */
  lemma {:induction false} SpaceRunAcross(s: string, i: nat, j: nat)
    requires i <= j <= |s|
    requires forall k :: i <= k < j ==> IsRegexSpace(s[k])
    requires j < |s| ==> !IsRegexSpace(s[j])
    ensures SpaceRunEnd(s, i) == j
    decreases j - i
  {
    if i < j {
      SpaceRunAcross(s, i + 1, j);
    }
  }

  // ---------------------------------------------------------------------------
  // buildNotificationEmailContent: argument preparation

  /** `StringUtils.hasText(v) ? v : d`. */
  function TextOrDefault(v: Option<string>, d: string): (r: string)
    ensures HasText(v) ==> r == v.value
    ensures !HasText(v) ==> r == d
  {
    if HasText(v) then v.value else d
  }

  /** The preview text: at most 150 characters of the content, then "..." when it was cut. */
  function Truncate(content: string): (r: string)
    ensures |content| <= MaxPostContentLength ==> r == content
    ensures |content| > MaxPostContentLength ==>
              |r| == MaxPostContentLength + 3 && r[..MaxPostContentLength] == content[..MaxPostContentLength]
              && r[MaxPostContentLength..] == "..."
  {
    if |content| > MaxPostContentLength then content[..MaxPostContentLength] + "..." else content
  }

  /** `s.replace("%", "%%")`. */
  function EscapePercent(s: string): (r: string)
  {
    ReplaceChar(s, '%', "%%")
  }

  /** Reads "%%" back as "%": what `String.format` does with a format string. */
  function UnescapePercent(s: string): (r: string)
  {
    if |s| >= 2 && s[0] == '%' && s[1] == '%' then "%" + UnescapePercent(s[2..])
    else if s == [] then []
    else [s[0]] + UnescapePercent(s[1..])
  }

  /** Escaping is undone by reading the text as a format string. */
  lemma {:induction false} EscapeRoundTrip(s: string)
    ensures UnescapePercent(EscapePercent(s)) == s
  {
    if s != [] {
      EscapeRoundTrip(s[1..]);
      var t := EscapePercent(s[1..]);
      if s[0] == '%' {
        assert EscapePercent(s) == "%%" + t;
        assert ("%%" + t)[2..] == t;
      } else {
        assert EscapePercent(s) == [s[0]] + t;
        assert ([s[0]] + t)[1..] == t;
      }
    }
  }

  /** Each '%' becomes two characters; every other character is kept. */
  lemma {:induction false} EscapeLength(s: string)
    ensures |EscapePercent(s)| == |s| + multiset(s)['%']
  {
    if s != [] {
      EscapeLength(s[1..]);
      assert s == [s[0]] + s[1..];
    }
  }

  /**
   * The escaped text is passed to `String.format` as an argument, not as the
   * format, so it is inserted as it is: a '%' in the source text shows as "%%".
   */
  lemma EscapedPercentShowsDoubled()
    ensures EscapePercent("100%") == "100%%"
  {
  }

  /** The preview block built around the escaped, truncated content. */
  function PreviewHtml(escaped: string): string {
    "<div class=\"post-preview\">" + escaped + "</div>\n"
  }

  /** The "View Full Post" button is shown unless the message mentions "follow" (in any case). */
  predicate ShowsFullPostLink(msg: string) {
    !Contains(ToLowerAscii(msg), "follow")
  }

  lemma FollowWordHidesLink(a: string, b: string)
    ensures !ShowsFullPostLink(a + "follow" + b)
  {
    var s := a + "follow" + b;
    var l := ToLowerAscii(s);
    assert l[|a|..|a| + 6] == "follow" by {
      forall k | 0 <= k < 6 ensures l[|a| + k] == "follow"[k] {
        assert s[|a| + k] == "follow"[k];
      }
    }
    assert OccursAt(l, "follow", |a|);
  }

  /** The arguments the notification template is filled with (the copyright year aside). */
  datatype EmailArgs = EmailArgs(
    actorMarginBottom: string,
    actorName: string,
    actorProfilePicUrl: string,
    actionText: string,
    postPreviewHtml: string,
    fullPostLink: Option<string>)   // the CTA button's target, when the button is shown

  /**
   * The template arguments `buildNotificationEmailContent` prepares for a
   * non-null message: the shared definition the builder and the mailer are
   * both tied to.
   */
  function NotificationContent(msg: string, actorName: Option<string>, actorProfilePicUrl: Option<string>,
                               postContent: Option<string>, postUrl: Option<string>): EmailArgs
  {
    EmailArgs(
      if HasText(postContent) then "24px" else "0",
      TextOrDefault(actorName, "Someone"),
      TextOrDefault(actorProfilePicUrl, DefaultAvatarUrl),
      EscapePercent(GetMsg(Some(msg))),
      if HasText(postContent) then PreviewHtml(EscapePercent(Truncate(postContent.value))) else "",
      if ShowsFullPostLink(msg) then Some(TextOrDefault(postUrl, "#")) else None)
  }

  /**
   * `buildNotificationEmailContent`. A null `msg` makes `msg.toLowerCase()`
   * throw after the other arguments are prepared.
   */
  method BuildNotificationEmailContent(msg: Option<string>, actorName: Option<string>,
                                       actorProfilePicUrl: Option<string>, postContent: Option<string>,
                                       postUrl: Option<string>)
    returns (r: Result<EmailArgs, ServiceError>)
    ensures msg.None? <==> r.Failure?
    ensures r.Failure? ==> r.error == NullPointer
    ensures r.Success? ==>
      var a := r.value;
      && a.actorName == (if HasText(actorName) then actorName.value else "Someone")
      && a.actorProfilePicUrl == (if HasText(actorProfilePicUrl) then actorProfilePicUrl.value else DefaultAvatarUrl)
      && a.actionText == EscapePercent(GetMsg(msg))
      && (HasText(postContent) <==> a.actorMarginBottom == "24px")
      && (!HasText(postContent) <==> a.actorMarginBottom == "0")
      && (HasText(postContent) ==> a.postPreviewHtml == PreviewHtml(EscapePercent(Truncate(postContent.value))))
      && (!HasText(postContent) ==> a.postPreviewHtml == "")
      && (a.fullPostLink.Some? <==> ShowsFullPostLink(msg.value))
      && (a.fullPostLink.Some? ==> a.fullPostLink.value == if HasText(postUrl) then postUrl.value else "#")
    ensures r.Success? ==> r.value == NotificationContent(msg.value, actorName, actorProfilePicUrl, postContent, postUrl)
  {
    var name := TextOrDefault(actorName, "Someone");
    var pic := TextOrDefault(actorProfilePicUrl, DefaultAvatarUrl);
    var url := TextOrDefault(postUrl, "#");
    var actionText := EscapePercent(GetMsg(msg));

    var preview := "";
    var margin := "0";
    if HasText(postContent) {
      margin := "24px";
      preview := PreviewHtml(EscapePercent(Truncate(postContent.value)));
    }

    if msg.None? {
      return Failure(NullPointer);
    }
    var link := None;
    if ShowsFullPostLink(msg.value) {
      link := Some(url);
    }
    r := Success(EmailArgs(margin, name, pic, actionText, preview, link));
  }

  // ---------------------------------------------------------------------------
  // The send methods

  datatype Email =
    | OtpEmail(to: string, subject: string, otp: string)
    | NotificationEmail(to: string, subject: string, args: EmailArgs)

  /** The transactional mail API, seen through the e-mails it accepted. */
  class Mailer {
    var sent: seq<Email>

    constructor ()
      ensures sent == []
    {
      sent := [];
    }

    /**
     * `sendOtpEmail`: a blank recipient returns without calling the API; a
     * failed API call (`apiAccepts` false) is rethrown as a MessagingException.
     */
    method SendOtpEmail(to: Option<string>, otp: string, apiAccepts: bool) returns (r: Result<(), ServiceError>)
      modifies this
      ensures !HasText(to) ==> r.Success? && sent == old(sent)
      ensures HasText(to) && apiAccepts ==> r.Success? && sent == old(sent) + [OtpEmail(to.value, OtpEmailSubject, otp)]
      ensures HasText(to) && !apiAccepts ==> r == Failure(MessagingFailure) && sent == old(sent)
    {
      if !HasText(to) {
        return Success(());
      }
      if !apiAccepts {
        return Failure(MessagingFailure);
      }
      sent := sent + [OtpEmail(to.value, OtpEmailSubject, otp)];
      r := Success(());
    }

    /**
     * `sendNotificationEmail`: a blank recipient or subject returns without
     * calling the API; the content is built outside the try block, so a null
     * message throws; a failed API call is logged and swallowed.
     */
    method SendNotificationEmail(to: Option<string>, subject: Option<string>, message: Option<string>,
                                 actorName: Option<string>, actorProfilePicUrl: Option<string>,
                                 postContent: Option<string>, postUrl: Option<string>, apiAccepts: bool)
      returns (r: Result<(), ServiceError>)
      modifies this
      ensures !HasText(to) || !HasText(subject) ==> r.Success? && sent == old(sent)
      ensures HasText(to) && HasText(subject) && message.None? ==> r == Failure(NullPointer) && sent == old(sent)
      ensures HasText(to) && HasText(subject) && message.Some? ==> r.Success?
      ensures HasText(to) && HasText(subject) && message.Some? && !apiAccepts ==> sent == old(sent)
      ensures HasText(to) && HasText(subject) && message.Some? && apiAccepts ==>
                  sent == old(sent) + [NotificationEmail(to.value, subject.value,
                  NotificationContent(message.value, actorName, actorProfilePicUrl, postContent, postUrl))]
    {
      if !HasText(to) || !HasText(subject) {
        return Success(());
      }
      var content := BuildNotificationEmailContent(message, actorName, actorProfilePicUrl, postContent, postUrl);
      if content.Failure? {
        return Failure(content.error);
      }
      if apiAccepts {
        sent := sent + [NotificationEmail(to.value, subject.value, content.value)];
      }
      r := Success(());
    }
  }
}
