/**
 * NotificationServiceImpl: creating a notification (and the email that goes
 * with it), the per-type message text, the DTO mapping, reading one page of
 * the caller's notifications (which marks the page read) and deleting all of
 * the caller's notifications.
 */
module NotificationService {
  import opened Wrappers
  import opened Seqs
  import opened JavaText
  import opened Entities
  import opened Store
  import opened EmailService
  import UserRepository
  import NotificationRepository

  const NotificationSubject: string := "New Notification from Xplore"
  const PostUrlPrefix: string := "https://xplore-v7f1.vercel.app/post/"

  /** The link to a post: the site prefix followed by the uuid's text form (modelled as its digits). */
  function PostUrl(u: Uuid): (r: string)
    ensures |r| > |PostUrlPrefix| && r[..|PostUrlPrefix|] == PostUrlPrefix
  {
    PostUrlPrefix + NatToString(u)
  }

  // ---------------------------------------------------------------------------
  // generateMessage

  /** `postRepository.findByUuid(related).orElse(null)`, with no lookup for a null uuid. */
  function RelatedPost(posts: map<Uuid, Post>, related: Option<Uuid>): (r: Option<Post>)
    ensures r.Some? <==> related.Some? && related.value in posts
    ensures r.Some? ==> r.value == posts[related.value]
  {
    if related.Some? && related.value in posts then Some(posts[related.value]) else None
  }

  /** The related entity is a stored post that has a parent, i.e. a comment. */
  predicate RelatedIsComment(posts: map<Uuid, Post>, related: Option<Uuid>) {
    RelatedPost(posts, related).Some? && RelatedPost(posts, related).value.parent.Some?
  }

  /** The sender's username, or "Someone" for a notification without a sender. */
  function SenderName(users: map<Uuid, User>, sender: Option<Uuid>): (r: string)
    requires sender.Some? ==> sender.value in users
    ensures sender.Some? ==> r == users[sender.value].username
    ensures sender.None? ==> r == "Someone"
  {
    if sender.Some? then users[sender.value].username else "Someone"
  }

  /** The text shown for a notification: one phrase per type, naming the sender where the type has one. */
  function GenerateMessage(posts: map<Uuid, Post>, users: map<Uuid, User>, n: Notification): (m: string)
    requires n.sender.Some? ==> n.sender.value in users
  {
    var name := SenderName(users, n.sender);
    match n.notificationType
    case NEW_FOLLOWER => name + " started following you."
    case POST_LIKE =>
      if RelatedIsComment(posts, n.relatedEntityUuid) then name + " liked your comment."
      else name + " liked your post."
    case POST_COMMENT =>
      if RelatedIsComment(posts, n.relatedEntityUuid) then name + " replied to your comment."
      else name + " commented on your post."
    case POST_CREATED => "Your post has been successfully published."
    case OtherType(_) => "You have a new notification."
  }

  /** The phrase that follows the sender's name, for the types whose message names the sender. */
  function ActionPhrase(posts: map<Uuid, Post>, n: Notification): (r: Option<string>)
    ensures r.Some? <==> n.notificationType in {NEW_FOLLOWER, POST_LIKE, POST_COMMENT}
    ensures r.Some? ==> |r.value| > 0 && !IsWhitespace(r.value[0])
  {
    match n.notificationType
    case NEW_FOLLOWER => Some("started following you.")
    case POST_LIKE => Some(if RelatedIsComment(posts, n.relatedEntityUuid) then "liked your comment." else "liked your post.")
    case POST_COMMENT =>
      Some(if RelatedIsComment(posts, n.relatedEntityUuid) then "replied to your comment." else "commented on your post.")
    case _ => None
  }

  /**
   * The message table: follow, like and comment messages are the sender's
   * name (or "Someone"), a space and the type's phrase; the like and comment
   * phrases say "comment" exactly when the related post is a comment; the
   * other types have fixed texts that name nobody.
   */
  lemma MessageTable(posts: map<Uuid, Post>, users: map<Uuid, User>, n: Notification)
    requires n.sender.Some? ==> n.sender.value in users
    ensures ActionPhrase(posts, n).Some? ==>
              GenerateMessage(posts, users, n) == SenderName(users, n.sender) + " " + ActionPhrase(posts, n).value
    ensures n.notificationType == POST_CREATED ==> GenerateMessage(posts, users, n) == "Your post has been successfully published."
    ensures n.notificationType.OtherType? ==> GenerateMessage(posts, users, n) == "You have a new notification."
  {
    match n.notificationType {
      case NEW_FOLLOWER => SpacedPhrase(SenderName(users, n.sender), " started following you.", "started following you.");
      case POST_LIKE => LikeMessage(posts, users, n);
      case POST_COMMENT => CommentMessage(posts, users, n);
      case _ =>
    }
  }

  /** The like row of the message table, kept apart so that each proof stays small. */
  lemma LikeMessage(posts: map<Uuid, Post>, users: map<Uuid, User>, n: Notification)
    requires n.sender.Some? ==> n.sender.value in users
    requires n.notificationType == POST_LIKE
    ensures GenerateMessage(posts, users, n) == SenderName(users, n.sender) + " " + ActionPhrase(posts, n).value
  {
    if RelatedIsComment(posts, n.relatedEntityUuid) {
      SpacedPhrase(SenderName(users, n.sender), " liked your comment.", "liked your comment.");
    } else {
      SpacedPhrase(SenderName(users, n.sender), " liked your post.", "liked your post.");
    }
  }

  /** The comment row of the message table. */
  lemma CommentMessage(posts: map<Uuid, Post>, users: map<Uuid, User>, n: Notification)
    requires n.sender.Some? ==> n.sender.value in users
    requires n.notificationType == POST_COMMENT
    ensures GenerateMessage(posts, users, n) == SenderName(users, n.sender) + " " + ActionPhrase(posts, n).value
  {
    if RelatedIsComment(posts, n.relatedEntityUuid) {
      SpacedPhrase(SenderName(users, n.sender), " replied to your comment.", "replied to your comment.");
    } else {
      SpacedPhrase(SenderName(users, n.sender), " commented on your post.", "commented on your post.");
    }
  }

  lemma SpacedPhrase(name: string, spaced: string, phrase: string)
    requires spaced == " " + phrase
    ensures name + spaced == name + " " + phrase
  {
  }

  /** The message ends in "your comment.": it speaks of a comment rather than a post. */
  predicate SaysComment(m: string) {
    |m| >= 13 && m[|m| - 13..] == "your comment."
  }

  /** Like and comment messages use the "comment" wording exactly when the related post is a comment. */
  lemma {:induction false} CommentWordingIff(posts: map<Uuid, Post>, users: map<Uuid, User>, n: Notification)
    requires n.sender.Some? ==> n.sender.value in users
    requires n.notificationType == POST_LIKE || n.notificationType == POST_COMMENT
    ensures SaysComment(GenerateMessage(posts, users, n)) <==> RelatedIsComment(posts, n.relatedEntityUuid)
  {
    MessageTable(posts, users, n);
    PhraseWording(posts, n);
    var phrase := ActionPhrase(posts, n).value;
    SaysCommentOfSuffix(SenderName(users, n.sender) + " ", phrase);
  }

  lemma PhraseWording(posts: map<Uuid, Post>, n: Notification)
    requires n.notificationType == POST_LIKE || n.notificationType == POST_COMMENT
    ensures SaysComment(ActionPhrase(posts, n).value) <==> RelatedIsComment(posts, n.relatedEntityUuid)
  {
    var phrase := ActionPhrase(posts, n).value;
    if !RelatedIsComment(posts, n.relatedEntityUuid) {
      assert phrase[|phrase| - 13] != 'y';
    }
  }

  /** Whether a text ends in "your comment." depends only on its last part, when that part is long enough. */
  lemma SaysCommentOfSuffix(a: string, b: string)
    requires |b| >= 13
    ensures SaysComment(a + b) <==> SaysComment(b)
  {
    assert (a + b)[|a + b| - 13..] == b[|b| - 13..];
  }

  /**
   * What the email's action line shows: for a sender whose username is a
   * single word, `getMsg` strips exactly that name and keeps " " + the phrase.
   */
  lemma {:induction false} EmailActionTextIsPhrase(posts: map<Uuid, Post>, users: map<Uuid, User>, n: Notification)
    requires n.sender.Some? && n.sender.value in users
    requires ActionPhrase(posts, n).Some?
    requires forall i :: 0 <= i < |users[n.sender.value].username| ==> !IsRegexSpace(users[n.sender.value].username[i])
    ensures GetMsg(Some(GenerateMessage(posts, users, n))) == " " + ActionPhrase(posts, n).value
  {
    MessageTable(posts, users, n);
    var phrase := ActionPhrase(posts, n).value;
    var name := users[n.sender.value].username;
    RegexSpaceIsWhitespace(phrase[0]);
    var s := name + " " + phrase;
    assert s[|name| + 1] == phrase[0];
    assert HasText(Some(s));
    GetMsgTail(name, " ", phrase);
  }

  /** A follow notification's email never offers the "View Full Post" button. */
  lemma FollowEmailHasNoPostLink(posts: map<Uuid, Post>, users: map<Uuid, User>, n: Notification)
    requires n.sender.Some? ==> n.sender.value in users
    requires n.notificationType == NEW_FOLLOWER
    ensures !ShowsFullPostLink(GenerateMessage(posts, users, n))
  {
    var name := SenderName(users, n.sender);
    assert GenerateMessage(posts, users, n) == (name + " started ") + "follow" + "ing you.";
    FollowWordHidesLink(name + " started ", "ing you.");
  }

  /**
   * The button rule looks at the whole message, the sender's name included:
   * a like or comment from a user whose username contains "follow" also
   * loses the "View Full Post" button.
   */
  lemma FollowInUsernameHidesPostLink(posts: map<Uuid, Post>, users: map<Uuid, User>, n: Notification, a: string, b: string)
    requires n.sender.Some? && n.sender.value in users
    requires n.notificationType in {POST_LIKE, POST_COMMENT}
    requires users[n.sender.value].username == a + "follow" + b
    ensures !ShowsFullPostLink(GenerateMessage(posts, users, n))
  {
    MessageTable(posts, users, n);
    NameWithFollowHidesLink(users[n.sender.value].username, ActionPhrase(posts, n).value, a, b);
  }

  lemma NameWithFollowHidesLink(name: string, phrase: string, a: string, b: string)
    requires name == a + "follow" + b
    ensures !ShowsFullPostLink(name + " " + phrase)
  {
    assert name + " " + phrase == a + "follow" + (b + " " + phrase);
    FollowWordHidesLink(a, b + " " + phrase);
  }

  // ---------------------------------------------------------------------------
  // The sender's picture, as written and as intended

  /**
   * `sender.getUserProfile().getProfilePictureUrl()` as written: a sender
   * without a profile makes the call throw a NullPointerException.
   */
  function SenderPictureAsWritten(users: map<Uuid, User>, profiles: map<ProfileRef, Profile>, sender: Uuid)
    : (r: Result<Option<string>, ServiceError>)
    requires sender in users && ProfilesLinked(users, profiles)
    ensures r.Failure? <==> users[sender].profile.None?
    ensures r.Failure? ==> r.error == NullPointer
    ensures r.Success? ==> r.value == profiles[users[sender].profile.value].profilePictureUrl
  {
    if users[sender].profile.None? then Failure(NullPointer)
    else Success(profiles[users[sender].profile.value].profilePictureUrl)
  }

  /**
   * The sender's picture, null-safe: absent when the sender has no profile,
   * as the notification DTO mapping in the same class already does it.
   */
  function SenderPicture(users: map<Uuid, User>, profiles: map<ProfileRef, Profile>, sender: Uuid)
    : (r: Option<string>)
    requires sender in users && ProfilesLinked(users, profiles)
    ensures users[sender].profile.None? ==> r.None?
    ensures users[sender].profile.Some? ==> r == profiles[users[sender].profile.value].profilePictureUrl
  {
    if users[sender].profile.None? then None else profiles[users[sender].profile.value].profilePictureUrl
  }

  /**
   * The corrected lookup never fails, agrees with the written one wherever
   * that one succeeds, and a sender without a profile is shown in the email
   * with the default avatar.
   */
  lemma SenderPictureCorrected(users: map<Uuid, User>, profiles: map<ProfileRef, Profile>, sender: Uuid)
    requires sender in users && ProfilesLinked(users, profiles)
    ensures SenderPictureAsWritten(users, profiles, sender).Success? ==>
              SenderPicture(users, profiles, sender) == SenderPictureAsWritten(users, profiles, sender).value
    ensures users[sender].profile.None? ==> TextOrDefault(SenderPicture(users, profiles, sender), DefaultAvatarUrl) == DefaultAvatarUrl
  {
  }

  /**
   * The outcome of `createNotification` as written, reduced to the one call
   * that can fail: a notification between two different users, to a
   * recipient with email enabled, from a sender without a profile throws,
   * and the surrounding transaction rolls back.
   */
  function CreateNotificationOutcomeAsWritten(users: map<Uuid, User>, profiles: map<ProfileRef, Profile>,
                                              sender: Uuid, recipient: Uuid): (r: Result<(), ServiceError>)
    requires sender in users && recipient in users && ProfilesLinked(users, profiles)
    ensures r.Failure? <==>
              users[sender].id != users[recipient].id && users[recipient].emailNotificationsEnabled
              && users[sender].profile.None?
  {
    if users[sender].id == users[recipient].id || !users[recipient].emailNotificationsEnabled then Success(())
    else match SenderPictureAsWritten(users, profiles, sender)
         case Failure(e) => Failure(e)
         case Success(_) => Success(())
  }

  /**
   * The input that shows it: a user registered without a valid picture URL
   * has no profile; when that user follows someone who has email
   * notifications on, the notification as written throws.
   */
  lemma ProfilelessSenderBreaksNotification()
    ensures var users := map[1 := User(10, 1, "alice", "a@x", "h", 0, 0, None, true),
                             2 := User(20, 2, "bob", "b@x", "h", 0, 0, None, true)];
            CreateNotificationOutcomeAsWritten(users, map[], 2, 1) == Failure(NullPointer)
  {
  }

  // ---------------------------------------------------------------------------
  // createNotification

  /** The arguments handed to `sendNotificationEmail`. */
  datatype EmailRequest = EmailRequest(
    to: string,
    subject: string,
    message: string,
    actorName: string,
    actorProfilePicUrl: Option<string>,
    postContent: Option<string>,
    postUrl: Option<string>)

  /**
   * The email for notification `n`: to the recipient, with the generated
   * message and the sender's name and picture; the context is the comment
   * when one is given, otherwise the related post's content when that post
   * exists; the link is present exactly when the related post exists.
   */
  function NotificationEmailRequest(posts: map<Uuid, Post>, users: map<Uuid, User>, profiles: map<ProfileRef, Profile>,
                                    n: Notification, comment: Option<string>): (e: EmailRequest)
    requires n.recipient in users && n.sender.Some? && n.sender.value in users
    requires ProfilesLinked(users, profiles)
    ensures e.to == users[n.recipient].email && e.subject == NotificationSubject
    ensures e.message == GenerateMessage(posts, users, n)
    ensures e.actorName == users[n.sender.value].username
    ensures e.actorProfilePicUrl == SenderPicture(users, profiles, n.sender.value)
    ensures comment.Some? ==> e.postContent == comment
    ensures comment.None? ==> (e.postContent.Some? <==> RelatedPost(posts, n.relatedEntityUuid).Some?)
    ensures comment.None? && e.postContent.Some? ==> e.postContent.value == posts[n.relatedEntityUuid.value].content
    ensures e.postUrl.Some? <==> RelatedPost(posts, n.relatedEntityUuid).Some?
    ensures e.postUrl.Some? ==> e.postUrl.value == PostUrl(n.relatedEntityUuid.value)
  {
    var post := RelatedPost(posts, n.relatedEntityUuid);
    EmailRequest(
      users[n.recipient].email,
      NotificationSubject,
      GenerateMessage(posts, users, n),
      users[n.sender.value].username,
      SenderPicture(users, profiles, n.sender.value),
      if comment.Some? then comment else if post.Some? then Some(post.value.content) else None,
      if post.Some? then Some(PostUrl(n.relatedEntityUuid.value)) else None)
  }

  lemma SubjectHasText()
    ensures HasText(Some(NotificationSubject))
  {
    assert !IsWhitespace(NotificationSubject[0]);
  }

  /** Saving a notification under the next id keeps the table's invariant. */
  lemma AddNotificationKeepsTable(notifications: map<nat, Notification>, users: map<Uuid, User>, next: nat, n: Notification)
    requires NotificationTable(notifications, users, next)
    requires n.id == next && n.recipient in users && (n.sender.Some? ==> n.sender.value in users)
    ensures NotificationTable(notifications[next := n], users, next + 1)
  {
  }

  /** The e-mail the mailer records for a request: its recipient, subject and template arguments. */
  function MailFor(e: EmailRequest): Email {
    NotificationEmail(e.to, e.subject,
                      NotificationContent(e.message, Some(e.actorName), e.actorProfilePicUrl, e.postContent, e.postUrl))
  }

  /** Hands one request to the mailer; its outcome is dropped, as the asynchronous call's would be. */
  method SendEmail(mailer: Mailer, e: EmailRequest, apiAccepts: bool)
    requires e.subject == NotificationSubject
    modifies mailer
    ensures !apiAccepts || !HasText(Some(e.to)) ==> mailer.sent == old(mailer.sent)
    ensures apiAccepts && HasText(Some(e.to)) ==> mailer.sent == old(mailer.sent) + [MailFor(e)]
  {
    SubjectHasText();
    var _ := mailer.SendNotificationEmail(Some(e.to), Some(e.subject), Some(e.message), Some(e.actorName),
                                          e.actorProfilePicUrl, e.postContent, e.postUrl, apiAccepts);
  }

  /**
   * `createNotification(sender, recipient, type, related, comment)`: nothing
   * for oneself; otherwise one unread notification is saved under the next
   * id and, when the recipient has email notifications on, the email is
   * handed to the mailer. The mail call runs asynchronously, so its outcome
   * never reaches the caller. Returns the email request it made, if any.
   */
  method CreateNotification(db: Database, mailer: Mailer, sender: Uuid, recipient: Uuid, t: NotificationType,
                            related: Option<Uuid>, comment: Option<string>, uuid: Uuid, now: int, apiAccepts: bool)
    returns (email: Option<EmailRequest>)
    requires db.Valid() && sender in db.users && recipient in db.users
    modifies db`notifications, db`nextNotificationId, mailer
    ensures db.Valid()
    ensures db.users[sender].id == db.users[recipient].id ==>
              db.notifications == old(db.notifications) && db.nextNotificationId == old(db.nextNotificationId)
    ensures db.users[sender].id != db.users[recipient].id ==>
              db.nextNotificationId == old(db.nextNotificationId) + 1
              && db.notifications == old(db.notifications)[old(db.nextNotificationId) :=
                   NewNotification(old(db.nextNotificationId), uuid, recipient, Some(sender), t, related, now)]
    ensures email.Some? <==> db.users[sender].id != db.users[recipient].id && db.users[recipient].emailNotificationsEnabled
    ensures email.Some? ==>
              email.value == NotificationEmailRequest(db.posts, db.users, db.profiles,
                                                      db.notifications[old(db.nextNotificationId)], comment)
    ensures email.None? || !apiAccepts || !HasText(Some(db.users[recipient].email)) ==> mailer.sent == old(mailer.sent)
    ensures email.Some? && apiAccepts && HasText(Some(db.users[recipient].email)) ==>
              mailer.sent == old(mailer.sent) + [MailFor(email.value)]
  {
    email := None;
    if db.users[sender].id == db.users[recipient].id {
      return;
    }
    var id := db.nextNotificationId;
    var n := NewNotification(id, uuid, recipient, Some(sender), t, related, now);
    AddNotificationKeepsTable(db.notifications, db.users, id, n);
    db.notifications := db.notifications[id := n];
    db.nextNotificationId := id + 1;
    if db.users[recipient].emailNotificationsEnabled {
      var e := NotificationEmailRequest(db.posts, db.users, db.profiles, n, comment);
      SendEmail(mailer, e, apiAccepts);
      email := Some(e);
    }
  }

  // ---------------------------------------------------------------------------
  // deleteNotifications

  /** `deleteNotifications`: an unknown caller is an error; otherwise every notification addressed to the caller goes. */
  method DeleteNotifications(db: Database, username: string) returns (r: Result<(), ServiceError>)
    requires db.Valid()
    modifies db`notifications
    ensures db.Valid()
    ensures UserRepository.FindByUsername(db.users, username).None? ==>
              r == Failure(ResourceNotFound) && db.notifications == old(db.notifications)
    ensures UserRepository.FindByUsername(db.users, username).Some? ==>
              r.Success?
              && db.notifications == NotificationRepository.DeletedForRecipient(
                                       old(db.notifications), UserRepository.FindByUsername(db.users, username).value)
  {
    var me := UserRepository.FindByUsername(db.users, username);
    if me.None? {
      return Failure(ResourceNotFound);
    }
    NotificationRepository.DeleteAllByRecipient(db, me.value);
    r := Success(());
  }

  // ---------------------------------------------------------------------------
  // getNotificationsForUser

  /** The NotificationResponseDTO fields the mapping sets. */
  datatype NotificationResponse = NotificationResponse(
    notificationUuid: Uuid,
    notificationType: NotificationType,
    isRead: bool,
    createdAt: int,
    relatedEntityUuid: Option<Uuid>,
    senderUuid: Option<Uuid>,
    senderUsername: Option<string>,
    senderProfilePictureUrl: Option<string>,
    message: string)

  /**
   * `mapEntityToDto`: the notification's own fields, the sender's uuid and
   * name when there is a sender, their picture only when they have a
   * profile, and the generated message.
   */
  function MapEntityToDto(posts: map<Uuid, Post>, users: map<Uuid, User>, profiles: map<ProfileRef, Profile>,
                          n: Notification): (d: NotificationResponse)
    requires n.sender.Some? ==> n.sender.value in users
    requires ProfilesLinked(users, profiles)
    ensures d.notificationUuid == n.uuid && d.notificationType == n.notificationType && d.isRead == n.isRead
    ensures d.createdAt == n.createdAt && d.relatedEntityUuid == n.relatedEntityUuid
    ensures d.senderUuid == n.sender
    ensures d.senderUsername.Some? <==> n.sender.Some?
    ensures d.senderUsername.Some? ==> d.senderUsername.value == users[n.sender.value].username
    ensures d.senderProfilePictureUrl.Some? ==>
              n.sender.Some? && users[n.sender.value].profile.Some?
              && d.senderProfilePictureUrl == profiles[users[n.sender.value].profile.value].profilePictureUrl
    ensures n.sender.Some? && users[n.sender.value].profile.Some? ==>
              d.senderProfilePictureUrl == profiles[users[n.sender.value].profile.value].profilePictureUrl
    ensures d.message == GenerateMessage(posts, users, n)
  {
    NotificationResponse(
      n.uuid, n.notificationType, n.isRead, n.createdAt, n.relatedEntityUuid,
      n.sender,
      if n.sender.Some? then Some(users[n.sender.value].username) else None,
      if n.sender.Some? then SenderPicture(users, profiles, n.sender.value) else None,
      GenerateMessage(posts, users, n))
  }

  /** The ids in `ids`, in order, whose notification is stored and unread. */
  function UnreadIds(notifications: map<nat, Notification>, ids: seq<nat>): (r: seq<nat>)
    ensures |r| <= |ids|
  {
    if ids == [] then []
    else
      var last := ids[|ids| - 1];
      UnreadIds(notifications, ids[..|ids| - 1])
        + (if last in notifications && !notifications[last].isRead then [last] else [])
  }

  /** The collected ids are exactly the listed ids of stored, unread notifications. */
  lemma {:induction false} UnreadIdsMembers(notifications: map<nat, Notification>, ids: seq<nat>)
    ensures forall id :: id in UnreadIds(notifications, ids) <==>
              id in ids && id in notifications && !notifications[id].isRead
    decreases |ids|
  {
    if ids != [] {
      var last := ids[|ids| - 1];
      UnreadIdsMembers(notifications, ids[..|ids| - 1]);
      assert ids == ids[..|ids| - 1] + [last];
    }
  }

  /** Every id names a stored notification whose sender, if any, is a stored user. */
  ghost predicate SendersStored(users: map<Uuid, User>, notifications: map<nat, Notification>, ids: seq<nat>) {
    forall k :: 0 <= k < |ids| ==> ids[k] in notifications
                                   && (notifications[ids[k]].sender.Some? ==> notifications[ids[k]].sender.value in users)
  }

  /** One DTO per id, in order. */
  function PageDtos(posts: map<Uuid, Post>, users: map<Uuid, User>, profiles: map<ProfileRef, Profile>,
                    notifications: map<nat, Notification>, ids: seq<nat>): (r: seq<NotificationResponse>)
    requires ProfilesLinked(users, profiles)
    requires SendersStored(users, notifications, ids)
    ensures |r| == |ids|
    ensures forall k :: 0 <= k < |ids| ==> r[k] == MapEntityToDto(posts, users, profiles, notifications[ids[k]])
  {
    if ids == [] then []
    else
      var last := ids[|ids| - 1];
      PageDtos(posts, users, profiles, notifications, ids[..|ids| - 1])
        + [MapEntityToDto(posts, users, profiles, notifications[last])]
  }

  lemma PageDtosStep(posts: map<Uuid, Post>, users: map<Uuid, User>, profiles: map<ProfileRef, Profile>,
                     notifications: map<nat, Notification>, ids: seq<nat>, i: nat)
    requires ProfilesLinked(users, profiles) && i < |ids|
    requires SendersStored(users, notifications, ids)
    ensures PageDtos(posts, users, profiles, notifications, ids[..i + 1]) ==
              PageDtos(posts, users, profiles, notifications, ids[..i])
              + [MapEntityToDto(posts, users, profiles, notifications[ids[i]])]
  {
    assert ids[..i + 1][..i] == ids[..i];
  }

  lemma UnreadIdsStep(notifications: map<nat, Notification>, ids: seq<nat>, i: nat)
    requires i < |ids|
    ensures UnreadIds(notifications, ids[..i + 1]) ==
              UnreadIds(notifications, ids[..i])
              + (if ids[i] in notifications && !notifications[ids[i]].isRead then [ids[i]] else [])
  {
    assert ids[..i + 1][..i] == ids[..i];
  }

  /** A prefix of a page whose senders are stored has its senders stored. */
  lemma SendersStoredPrefix(users: map<Uuid, User>, notifications: map<nat, Notification>, ids: seq<nat>, i: nat)
    requires SendersStored(users, notifications, ids) && i <= |ids|
    ensures SendersStored(users, notifications, ids[..i])
  {
  }

  /**
   * One pass of the `forEach` body: the next notification's DTO is appended,
   * and its id too when it is unread.
   */
  method MapStep(posts: map<Uuid, Post>, users: map<Uuid, User>, profiles: map<ProfileRef, Profile>,
                 notifications: map<nat, Notification>, ids: seq<nat>, i: nat,
                 dtos: seq<NotificationResponse>, unread: seq<nat>)
    returns (dtos': seq<NotificationResponse>, unread': seq<nat>)
    requires ProfilesLinked(users, profiles) && i < |ids|
    requires SendersStored(users, notifications, ids)
    requires ids[i] in notifications && notifications[ids[i]].id == ids[i]
    requires SendersStored(users, notifications, ids[..i])
    requires dtos == PageDtos(posts, users, profiles, notifications, ids[..i])
    requires unread == UnreadIds(notifications, ids[..i])
    ensures SendersStored(users, notifications, ids[..i + 1])
    ensures dtos' == PageDtos(posts, users, profiles, notifications, ids[..i + 1])
    ensures unread' == UnreadIds(notifications, ids[..i + 1])
  {
    SendersStoredPrefix(users, notifications, ids, i + 1);
    PageDtosStep(posts, users, profiles, notifications, ids, i);
    UnreadIdsStep(notifications, ids, i);
    var n := notifications[ids[i]];
    dtos' := dtos + [MapEntityToDto(posts, users, profiles, n)];
    unread' := unread;
    if !n.isRead {
      unread' := unread' + [n.id];
    }
  }

  /** The table after reading the page `ids`: untouched when nothing on it was unread, otherwise the bulk update of the unread ids. */
  function ReadPage(notifications: map<nat, Notification>, recipient: Uuid, ids: seq<nat>): (r: map<nat, Notification>)
    ensures r.Keys == notifications.Keys
  {
    var unread := UnreadIds(notifications, ids);
    if unread == [] then notifications else NotificationRepository.MarkedAsRead(notifications, recipient, unread)
  }

  /**
   * After a page of the recipient's own notifications is read, every item on
   * it is read, and every other row (another recipient's, or one not on the
   * page) is exactly as before.
   */
  lemma ReadPageEffect(notifications: map<nat, Notification>, recipient: Uuid, ids: seq<nat>)
    requires forall id :: id in ids ==> id in notifications && notifications[id].recipient == recipient
    ensures forall id :: id in ids ==> ReadPage(notifications, recipient, ids)[id].isRead
    ensures forall id :: id in ids ==>
              ReadPage(notifications, recipient, ids)[id] == notifications[id].(isRead := true)
    ensures forall id :: id in notifications && id !in ids ==> ReadPage(notifications, recipient, ids)[id] == notifications[id]
  {
    var unread := UnreadIds(notifications, ids);
    var r := ReadPage(notifications, recipient, ids);
    UnreadIdsMembers(notifications, ids);
    if unread != [] {
      forall id | id in notifications && id !in ids ensures r[id] == notifications[id] {
        NotificationRepository.MarkAsReadScoped(notifications, recipient, unread, id);
      }
      forall id | id in ids ensures r[id] == notifications[id].(isRead := true) {
        assert r[id].(isRead := notifications[id].isRead) == notifications[id];
      }
    } else {
      forall id | id in ids ensures notifications[id].isRead {
        assert id !in unread;
      }
    }
  }

  /**
   * The `forEach` over a page: one DTO per notification, in page order, and
   * the ids of the unread ones, in page order.
   */
  method MapPage(posts: map<Uuid, Post>, users: map<Uuid, User>, profiles: map<ProfileRef, Profile>,
                 notifications: map<nat, Notification>, ids: seq<nat>)
    returns (dtos: seq<NotificationResponse>, unread: seq<nat>)
    requires ProfilesLinked(users, profiles)
    requires SendersStored(users, notifications, ids)
    requires forall k :: 0 <= k < |ids| ==> ids[k] in notifications && notifications[ids[k]].id == ids[k]
    ensures dtos == PageDtos(posts, users, profiles, notifications, ids)
    ensures unread == UnreadIds(notifications, ids)
  {
    dtos, unread := [], [];
    var i := 0;
    SendersStoredPrefix(users, notifications, ids, 0);
    while i < |ids|
      invariant 0 <= i <= |ids|
      invariant SendersStored(users, notifications, ids[..i])
      invariant dtos == PageDtos(posts, users, profiles, notifications, ids[..i])
      invariant unread == UnreadIds(notifications, ids[..i])
    {
      dtos, unread := MapStep(posts, users, profiles, notifications, ids, i, dtos, unread);
      i := i + 1;
    }
    assert ids[..i] == ids;
  }

  /** The requested page of `recipient`'s notifications, newest first. */
  function RecipientPage(notifications: map<nat, Notification>, recipient: Uuid, rows: seq<nat>, pageable: Pageable)
    : (page: Page<nat>)
    requires pageable.size > 0
    ensures forall id :: id in page.content ==> id in notifications && notifications[id].recipient == recipient
    ensures forall k :: 0 <= k < |page.content| ==> page.content[k] in notifications
  {
    var page := Paginate(NotificationRepository.FindByRecipientOrderByCreatedAtDesc(notifications, recipient, rows), pageable);
    assert forall k :: 0 <= k < |page.content| ==> page.content[k] in page.content;
    page
  }

  /** The response for a page: its DTOs, in page order, and its metadata. */
  function PageResponse(posts: map<Uuid, Post>, users: map<Uuid, User>, profiles: map<ProfileRef, Profile>,
                        notifications: map<nat, Notification>, page: Page<nat>): (r: PagedResponse<NotificationResponse>)
    requires ProfilesLinked(users, profiles) && SendersStored(users, notifications, page.content)
    ensures r.content == PageDtos(posts, users, profiles, notifications, page.content)
    ensures r.currentPage == page.number && r.totalPages == page.totalPages
    ensures r.totalItems == page.totalElements && r.isLast == page.isLast
  {
    PagedResponse(PageDtos(posts, users, profiles, notifications, page.content), page.number, page.totalPages,
                  page.totalElements, page.isLast)
  }

  /**
   * `getNotificationsForUser(caller, pageable)`: an unknown caller is an
   * error; otherwise one DTO per notification on the requested page of the
   * caller's notifications (newest first), each showing the read flag as it
   * was before the call, with the page metadata, after which the page's
   * unread notifications are marked read in one bulk update.
   */
  method GetNotificationsForUser(db: Database, username: string, rows: seq<nat>, pageable: Pageable)
    returns (r: Result<PagedResponse<NotificationResponse>, ServiceError>)
    requires db.Valid() && pageable.size > 0
    modifies db`notifications
    ensures db.Valid()
    ensures UserRepository.FindByUsername(db.users, username).None? ==>
              r == Failure(ResourceNotFound) && db.notifications == old(db.notifications)
    ensures UserRepository.FindByUsername(db.users, username).Some? ==>
              var page := RecipientPage(old(db.notifications), UserRepository.FindByUsername(db.users, username).value, rows, pageable);
              && r == Success(PageResponse(db.posts, db.users, db.profiles, old(db.notifications), page))
              && db.notifications == ReadPage(old(db.notifications), UserRepository.FindByUsername(db.users, username).value, page.content)
  {
    var me := UserRepository.FindByUsername(db.users, username);
    if me.None? {
      return Failure(ResourceNotFound);
    }
    var page := RecipientPage(db.notifications, me.value, rows, pageable);
    var dtos, unread := MapPage(db.posts, db.users, db.profiles, db.notifications, page.content);
    r := Success(PagedResponse(dtos, page.number, page.totalPages, page.totalElements, page.isLast));
    if unread != [] {
      NotificationRepository.MarkAsRead(db, me.value, unread);
    }
  }
}
