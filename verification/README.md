# Job portal: accounts, one-time codes and applications

This project is a Dafny model of the request handlers of a Django job board. It covers these parts:

- **Accounts.** Registration, the one-time code (OTP) that verifies a new account, and the password reset that reuses the same code field.
- **Login.** The gate that checks the credentials and the account's flags.
- **Candidates.** Applying to a job and bookmarking it.
- **Employers.** Posting, editing and deleting jobs, and setting the status of an application.
- **Views.** The counter a job's page increments.

The schema is taken from `myapp/models.py`. The project models both copies of the views:

- `myproject/myapp/views.py`, the current copy, which also mails the user. It is module `Views`.
- `myapp/views.py`, the older copy, which mails nobody. It is module `LegacyViews`.

## How the model is organised

The database is one object, `Store.Db`, with a field per table:

- **Accounts and profiles** are sequences, and a row's position is its id. The handlers never delete these rows.
- **Jobs, applications and bookmarks** are maps from row id to row, each with the next id to hand out. These rows can be deleted.

`Store.Db.Valid` holds when three things are true:

- every foreign key names a row that exists;
- every id is below its table's counter;
- the two `unique_together` constraints hold.

Every handler is a method on the database:

- It keeps `Valid`.
- Its `modifies` clause names only the tables it writes.
- It returns an `Outcome` tag in place of the page, the redirect and the flash message.
- The handlers of the current copy also return the mails they send.

Django's `Model.objects.get(...)` is `Query.Get` over a key column. It can find no row (`DoesNotExist`), several rows (`MultipleObjectsReturned`, which the handlers' generic `except` turns into `ServerError`), or exactly one row.

Nothing in the schema makes an email unique. The model keeps that as a separate predicate, `Models.EmailsUnique`, which registration preserves.

Some values come from the outside world, and each of these is a parameter of the handler:

- the verdict of Django's `validate_email`;
- the value `randint(10000, 99999)` drew;
- the date `strptime` read;
- `date.today()`;
- whether the mail server accepted a message.

Form fields are taken after the handlers' `.strip()` and `.lower()`. A field that was not sent is the empty string.

`Scenarios` chains requests the way a browser sends them and states what each chain guarantees.

## Model

| member | source | states |
|---|---|---|
| Models.NewUser | myapp/models.py:3-9 | a new account is active and unverified, and holds the given email, password, code and role |
| Models.NewJob | myapp/models.py:35-70 | a new job has one vacancy, is active and not featured, has no views, requires experience "0-1" (the first experience choice) and has no deadline |
| Models.JobToString | myapp/models.py:75-76 | the text is the title, then " at ", then the company name |
| Models.StatusCode | myapp/models.py:82-95 | every status is stored as one of the six codes in the status choices |
| Models.ParseStatus | myapp/models.py:82-95 | a submitted status is accepted exactly when it is one of the six codes, and it maps back to that code |
| Models.ParseStatusCode | myapp/models.py:82-95 | reading a status's stored code gives the status back |
| Models.Emails | myapp/models.py:3-9 | the email column lists each account's email in id order |
| Models.Logins | myapp/models.py:3-9 | the (email, password) column lists each account's pair in id order |
| Models.CandidateOwners | myapp/models.py:22-23 | the owner column lists each candidate profile's account id |
| Models.CompanyOwners | myapp/models.py:12-13 | the owner column lists each company profile's account id |
| Models.UniqueEmailsSingleRow | myapp/models.py:3-9 | with distinct emails, no lookup by email, or by email and password, finds several rows |
| Models.ApplicationsUnique | myapp/models.py:100-102 | no two applications share a (job, candidate) pair |
| Models.SavedUnique | myapp/models.py:112-113 | no two bookmarks share a (candidate, job) pair |
| Models.ApplicationsOf | myapp/models.py:78-79 | the applications of one job, whose number `get_applications_count` returns |
| Models.Before | myproject/myapp/views.py:768 | the calendar order `deadline_date < date.today()` compares by |
| Models.AddSaved | myapp/models.py:108-113 | storing a pair that is not bookmarked keeps bookmarks unique and adds exactly that pair |
| Models.RemoveSaved | myapp/models.py:108-113 | deleting one bookmark row keeps bookmarks unique and removes exactly its pair |
| Models.AddApplication | myapp/models.py:78-102 | a first application of a pair keeps applications unique, adds one to that job's count, and leaves every other job's count as it was |
| Models.DropApplicationsOfJob | myapp/models.py:91 | the cascade of a job's deletion keeps exactly the applications to other jobs, unchanged |
| Models.DropSavedOfJob | myapp/models.py:109 | the cascade of a job's deletion keeps exactly the bookmarks on other jobs, unchanged |
| Models.DropApplicationsOfCandidate | myapp/models.py:92 | the cascade of a candidate's deletion keeps exactly the other candidates' applications, unchanged |
| Models.DropSavedOfCandidate | myapp/models.py:108 | the cascade of a candidate's deletion keeps exactly the other candidates' bookmarks, unchanged |
| Models.CascadeLeavesNoReference | myapp/models.py:91-113 | after either cascade, no application or bookmark refers to the deleted row, and both uniqueness constraints still hold |
| Query.Get | myproject/myapp/views.py:1307 | `.get()` finds no row exactly when no key matches, and several rows exactly when two keys match; a single row it finds is the only one with that key |
| Decimal.NatToString | myproject/myapp/views.py:1314 | `str(n)` is all digits and non-empty, with no leading zero unless n is 0 |
| Decimal.IntToString | myproject/myapp/views.py:1314 | `str(n)` is all digits for n >= 0 and starts with '-' for n < 0 |
| Decimal.ParseInt | myproject/myapp/views.py:756-761 | `int(s)` succeeds exactly on an optional '+' or '-' followed by one or more digits, and gives the digits' value with that sign; any other text is the ValueError branch |
| Decimal.ReadShow | myproject/myapp/views.py:1314 | reading back the digits `str(n)` wrote gives n |
| Decimal.ShowRead | myproject/myapp/views.py:1314 | writing back the value of a digit string with no leading zero gives the same string |
| Decimal.FiveDigitRange | myproject/myapp/views.py:1302 | `str(n)` has five characters exactly when n is in [10000, 99999] |
| Decimal.ParseIntShow | myproject/myapp/views.py:756-761 | `int(str(n)) == n` for every integer |
| Forms.IsFiveDigitCode | myproject/myapp/views.py:1302 | the entry is five characters, each a digit |
| Forms.CodeMatches | myproject/myapp/views.py:1314 | the entry is the text `str` writes for the stored code |
| Forms.CodeMatchesIff | myproject/myapp/views.py:1302-1314 | for a five-digit entry, the string comparison of codes is numeric equality, except that an entry with a leading zero never matches |
| Forms.MatchImpliesIssuedRange | myproject/myapp/views.py:1302-1314 | only a stored code in [10000, 99999] can be matched by an accepted entry |
| Forms.ClearedCodeNeverMatches | myproject/myapp/views.py:1314-1317 | a code cleared to 0 after use matches no entry the verify or reset form accepts |
| Forms.IssuedCodeIsEnterable | myproject/myapp/views.py:1227 | every code `randint(10000, 99999)` issues is accepted by the five-digit check and matches itself |
| Forms.PiecesListFailures | myproject/myapp/views.py:1189-1222 | over the six checks' verdicts, a message is in the appended list exactly when its check failed, and the list is empty exactly when none failed |
| Forms.ExpectedErrorsListFailures | myproject/myapp/views.py:1189-1222 | each registration message is listed exactly when its check fails, and the list is empty exactly when every check passes |
| Forms.ExpectedErrorsInOrder | myproject/myapp/views.py:1189-1222 | the registration messages come in check order, with no repeats |
| Forms.AscendingPairwise | myproject/myapp/views.py:1189-1222 | in a list in check order, every earlier message belongs to an earlier check |
| Forms.RegistrationErrors | myproject/myapp/views.py:1189-1222 | the appended `errors` list is the list of failed checks in order; each message is there exactly when its check fails, and the list is empty exactly when registration is acceptable |
| Forms.CompanyNameOrDefault | myproject/myapp/views.py:1248-1251 | a blank company name becomes "fname lname Company"; any other name is kept |
| Forms.NormaliseVacancies | myproject/myapp/views.py:756-761 | vacancies are at least 1; an integer of at least 1 is kept, and an absent field, non-integer text or a value below 1 gives 1 |
| Forms.CheckDeadline | myproject/myapp/views.py:763-773 | a deadline is refused exactly when it parsed to a date before today; unreadable or empty text gives no deadline; any other date is kept |
| Forms.PostedJob | myproject/myapp/views.py:776-792 | the new job belongs to the caller's company, carries the form's required and optional fields (salary, requirements, skills, responsibilities, benefits), vacancies and deadline, and is active and not featured, with no views |
| Forms.EditedJob | myproject/myapp/views.py:893-925 | an edit replaces the form's required and optional fields (salary, requirements, skills, responsibilities, benefits), vacancies and deadline, and keeps the owner, company name, flags and view counter |
| Forms.Toggle | myproject/myapp/views.py:630-636 | the toggled pair's membership flips and no other pair changes |
| Forms.ToggleTwice | myproject/myapp/views.py:630-636 | toggling the same pair twice restores the bookmarks |
| Store.Db.constructor | myapp/models.py:3-113 | an empty database is valid |
| Store.BookmarkAdded | myapp/models.py:108-113 | a new bookmark of an existing job and candidate, under a fresh id, keeps the table valid and adds exactly its pair |
| Store.BookmarkRemoved | myapp/models.py:108-113 | deleting a bookmark row keeps the table valid and removes exactly its pair |
| Store.JobDeleted | myapp/models.py:91-109 | deleting a job together with its cascades keeps the jobs, applications and bookmarks tables valid |
| Store.StatusChanged | myapp/models.py:95-102 | changing an application's status keeps the applications table valid |
| Store.CurrentActor | myproject/myapp/views.py:527-543 | the caller is found exactly when the session holds an email, one account has it, the account has the role, and one profile belongs to it; otherwise the outcome is NotLoggedIn, UnknownUser, WrongRole, NoProfile or ServerError |
| Store.ProfileFirstName | myproject/myapp/views.py:1322-1328 | the greeting name is the first name of the account's one profile of its role, "User" for an account of neither role, and nothing when the profile lookup fails |
| Views.EmployerNotice | myproject/myapp/views.py:576-589 | none for a job without a company; when the company's rows can be read, exactly one notice, to the company owner's email, greeting the company's first name and naming the applicant's full name, the job and the new application's id |
| Views.CandidateCalling | myproject/myapp/views.py:529-541 | a caller found by the candidate guard is the one account with the session's email, has the candidate role and owns the profile returned; otherwise one of the guard's error outcomes |
| Views.CompanyCalling | myproject/myapp/views.py:723-733 | a caller found by the employer guard is the one account with the session's email, has the company role and owns the company returned; otherwise one of the guard's error outcomes |
| Views.OwnsJob | myproject/myapp/views.py:865 | `get_object_or_404(Job, id=..., company=company)` finds the job exactly when it exists and belongs to that company |
| Views.ProfileRowsClash | myproject/myapp/views.py:1129-1147 | the profile lookup after login raises MultipleObjectsReturned exactly when the account has several profile rows of its role |
| Views.RegisterUser | myproject/myapp/views.py:1178-1283 | a form that fails a check is refused with exactly the failed checks' messages, and nothing is created; otherwise an active, unverified account holding the drawn code is created, with one profile of its role, and the code is mailed; distinct emails stay distinct |
| Views.VerifyOtp | myproject/myapp/views.py:1291-1351 | a code that is not five digits is refused before any lookup; an already verified account is left alone; a matching code verifies the account and clears its code, with a welcome mail when the greeting lookup succeeds; any other outcome changes nothing |
| Views.ResendOtp | myproject/myapp/views.py:1354-1412 | a fresh code replaces the stored one and is mailed exactly when one unverified account has the email; otherwise nothing changes |
| Views.ForgotPassword | myproject/myapp/views.py:1427-1479 | a fresh code replaces the stored one and is mailed exactly when one account has the email, verified or not; otherwise nothing changes |
| Views.ResetPassword | myproject/myapp/views.py:1482-1546 | the password is replaced and the code cleared exactly when every field is present, the code has five digits, the passwords agree and are at least 6 long, and the code matches the stored one; otherwise the stored password is kept |
| Views.ResendResetOtp | myproject/myapp/views.py:1549-1594 | like forgot-password, but without the email-format check |
| Views.LoginView | myproject/myapp/views.py:1096-1170 | the session is written exactly when one account has this email and password and is active and verified, with that account's email, role and id; the login then succeeds unless the account has several profile rows of its role, which ends in ServerError with the session already written |
| Views.ApplyJob | myproject/myapp/views.py:527-610 | an application is added exactly when a candidate applies to an active job it has not applied to, with a cover letter; the new row is pending under a fresh id, the job's count grows by one, and the candidate gets a receipt and the employer a notice; otherwise nothing changes and nothing is mailed |
| Views.SaveJob | myproject/myapp/views.py:613-649 | for a candidate and an active job, the bookmark of the pair is created if absent and deleted if present; otherwise the bookmarks are unchanged |
| Views.PostJob | myproject/myapp/views.py:721-814 | a job is created exactly when an employer sends the four required fields and no past deadline; the row is the company's, with the vacancies and deadline normalised; otherwise the jobs are unchanged |
| Views.EditJob | myproject/myapp/views.py:850-948 | only a job of the caller's company is edited, with the same checks as posting; otherwise the jobs are unchanged |
| Views.DeleteJob | myproject/myapp/views.py:951-985 | only a job of the caller's company is deleted, together with its applications and bookmarks; otherwise nothing changes |
| Views.UpdateApplicationStatus | myproject/myapp/views.py:1026-1093 | the status changes exactly when an employer owns the application's job and sends one of the six codes; the candidate is mailed exactly when the old status differs from the new one; otherwise nothing changes |
| Views.JobDetail | myproject/myapp/views.py:475-481 | opening an active job's page adds exactly 1 to its view counter; any other id is NotFound and changes nothing |
| LegacyViews.RegisterUser | myapp/views.py:794-894 | the same checks and rows as the current copy's registration, with no mail |
| LegacyViews.VerifyOtp | myapp/views.py:903-949 | the same checks and update as the current copy's verify_otp, with no welcome mail |
| LegacyViews.ResendOtp | myapp/views.py:952-994 | a fresh code replaces the stored one exactly when one unverified account has the email |
| LegacyViews.ApplyJob | myapp/views.py:181-241 | at most one application per job and candidate; the new row is pending, and an empty cover letter creates nothing |
| LegacyViews.SaveJob | myapp/views.py:244-280 | the same create-or-delete toggle as the current copy |
| LegacyViews.PostJob | myapp/views.py:352-445 | the same required fields, vacancies clamp and deadline check as the current copy |
| LegacyViews.UpdateApplicationStatus | myapp/views.py:657-704 | ownership and a valid status are required; the status is then overwritten even when unchanged, and nobody is mailed |
| LegacyViews.JobDetail | myapp/views.py:129-135 | an active job's page adds exactly 1 to its view counter |
| Scenarios.SignUp | myproject/myapp/views.py:1225-1262 | an acceptable sign-up creates the one account with that email, holding the drawn code, and exactly one profile of its role (the lookup by the new account id finds just the appended row), even when other accounts share emails |
| Scenarios.AppendedOwnerIsSingle | myproject/myapp/views.py:1240-1262 | the profile row created for a new account is the only row that account owns |
| Scenarios.SignUpThenVerify | myproject/myapp/views.py:1225-1339 | after an acceptable sign-up, a mistyped code does not verify the account, and the mailed code does; distinct emails stay distinct |
| Scenarios.MistypeThenVerify | myproject/myapp/views.py:1310-1318 | on an unverified account holding a code, a mistyped entry does not verify it, and the right code then verifies it and clears the code, changing nothing else |
| Scenarios.SignUpThenLogIn | myproject/myapp/views.py:1096-1339 | after sign-up and verification, the new account logs in with the password it registered, and the session names it, whatever emails other accounts share |
| Scenarios.ResetCodeVerifiesAccount | myproject/myapp/views.py:1440-1448 | the code forgot-password writes also verifies an account that was never verified, because both flows use the same field |
| Scenarios.ResetTwice | myproject/myapp/views.py:1518-1521 | after a successful reset, a second reset fails whatever code is typed, and the first new password stays |
| Scenarios.VerifyTwice | myproject/myapp/views.py:1310-1318 | once an account is verified, a second verify with the same code reports AlreadyVerified |
| Scenarios.BookmarkTwice | myproject/myapp/views.py:630-636 | two clicks on the same bookmark leave the bookmarks as they were |
| Scenarios.ApplyTwice | myproject/myapp/views.py:545-566 | a second application of the same candidate to the same job is refused, and the job gains at most one application |

## Left out

- Mail bodies, `get_email_base_style` and `send_email` (myproject/myapp/views.py:30-366) are HTML text and SMTP I/O. The model keeps which mail is sent, with the fields the handler fills in. Whether delivery succeeded is a parameter.
- Code expiry is not modelled. The mails say a code lasts 10 minutes, but no handler checks the time.
- Several parts of the repository are not part of this model:
  - `chat_api` in both views files and the chatbot script;
  - `browse_jobs`, `search_jobs`, `my_jobs`, `my_applications`, `saved_jobs_view`, `job_applications`, `profile_view`, `home` and the static pages;
  - the seeding and maintenance scripts, `urls.py` and `admin.py`.
- GET requests, rendering, redirects, flash messages, the login `next` redirect and the session's name fields are not modelled. A handler returns an outcome tag; a login returns the email, role and id it puts in the session.
- `transaction.atomic`, concurrent requests and the race between the email check and the account insert are not modelled.
- `myapp/views.py` has its own `login_view`, `edit_job` and `delete_job`, which are not modelled separately. Their steps are those of `Views.LoginView`, `Views.EditJob` and `Views.DeleteJob`.
- Views.RegisterUser, LegacyViews.RegisterUser, Views.ResendOtp, LegacyViews.ResendOtp, Views.ForgotPassword and Views.ResendResetOtp: these take the drawn code as a parameter and require it to be in [10000, 99999], the range of `randint(10000, 99999)`.
- Forms.IsFiveDigitCode: Python's `isdigit()` also accepts non-ASCII digit characters, and the model accepts only '0' to '9'. Such an entry is refused as BadCodeFormat in the model. In the source it reaches the lookup and then fails to match, because `str(int)` writes ASCII digits only.
- Decimal.ParseInt: Python's `int()` also accepts surrounding whitespace, underscores between digits and non-ASCII digits, and the model does not. Such vacancy text becomes 1 in the model instead of its value.
- Passwords are stored and compared in clear text, as the source does. No hashing is modelled.
- `job_type` and `experience_required` are not checked against their choice lists, because the handlers do not check them either (only a non-empty `job_type` is required).
- The résumé upload, timestamps and the optional candidate and company profile fields are not modelled. The JobAlert table is not modelled either, because no handler in scope touches it.
- Views.RegisterUser, LegacyViews.RegisterUser: the exception branch after registration's checks (a database error while inserting) is not modelled. In-memory inserts cannot fail, and the model does not bound column widths (`max_length` of the account and profile text columns).
- Views.PostJob: a write the database refuses is not modelled. The vacancies value from `int()` is unbounded, and a value past the integer column's range (64 bits on SQLite, 32 bits on most other backends), or text longer than a `max_length` column (255 for title, company name and location), makes `Job.objects.create` raise; the handler's `except` (myproject/myapp/views.py:811) then creates nothing. The model creates the job.
- Views.EditJob: the same refused write on `job.save()` (caught at myproject/myapp/views.py:944, nothing changed) is not modelled; the model stores the edit.
- LegacyViews.PostJob: the same refused write as Views.PostJob is not modelled.
