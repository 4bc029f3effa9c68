# Core authentication service, modelled in Dafny

This project models the logic of a small internal authentication service
that a front-end gateway (the BFF) calls. It covers five pieces:

- **Credential validator** (`AuthService`). Login checks an email and a raw password against the stored digest. Registration rejects a taken email, hashes the password, gives the new user exactly the `USER` role and saves it.
- **Start-up seeding** (`DataLoader`). It creates the roles ADMIN, MANAGER and EMPLOYEE if they are absent, and the administrator `admin@connectrh.com` if no user has that email.
- **Shared-secret gate** (`ApiKeyAuthFilter`). If the `X-INTERNAL-API-KEY` header equals the configured key, it grants the principal `internal-bff` with the single authority `ROLE_INTERNAL`. It never rejects a request.
- **Route policy** (`InternalSecurityConfig`). Two filter chains are consulted in order. The first applies to paths under `/api/v1/internal` and requires role `INTERNAL`. The second lets everything else through.
- **Endpoints** (`AuthController`). These map validator results and errors to HTTP answers: 200/401 for login, 201/400/500 for signup, and 200 for the status check. The login answer includes the user's role names.

Modelling choices:

- **Repositories.** They are modelled as a `Store`: one map from email to user and one from role name to role. Each table has its own identity counter, which is how new rows get fresh ids.
- **Password encoder.** It is a `Hasher` value with two functions, `encode` and `matches`. The only assumption is `Sound`: a password matches its own digest. Nothing else is assumed, so a lemma that needs a wrong password to fail says so in its `requires`.
- **Operations.** Each one is a pure function that returns its result and the store it leaves behind (`Step`). This makes "the store is unchanged" and "exactly one row was added" directly statable. `ValidateCredentials` returns only its result, so it is read-only by its type.
- **Store consistency.** `Persistence.Valid` requires that rows sit under their own keys, that ids are fresh and distinct, and that users' roles are rows of the role table. Registration and seeding preserve it.
- **Path matching.** Spring's Ant matcher for `/api/v1/internal/**` is modelled as a sub-path test: the path starts with `/api/v1/internal` and either ends there or continues with `/`. `InternalMatcherIsPolicy` proves that this is the plain policy "the prefix itself or anything below it".
- **Missing USER role.** Seeding does not create `USER`. So on a database seeded from empty, every signup with a new email hits the configuration error and gets a 500. `SignupFailsAfterFreshSeed` proves this instead of hiding it.
- **Where the source files disagree with each other, the model follows the code that runs:**
  - the controller fills the login answer with `setUserId` and `setPhoneNumber` (AuthController.java:59,62), but `CoreAuthResponse` declares only `id`, `name`, `email` and `roles` (CoreAuthResponse.java:21-24), so the controller does not compile against that class as written. `AuthController.CoreAuthResponse` carries the fields the controller sets;
  - signup assigns the USER role (AuthService.java:67-71), but seeding never creates it (DataLoader.java:36-38).

## Model

| member | source | states |
|---|---|---|
| Persistence.EmptyStoreValid | src/main/java/com/connectrh/core/data/DataLoader.java:34-55 | the empty database that seeding starts from is consistent |
| Persistence.FindByEmail | src/main/java/com/connectrh/core/repository/UserRepository.java:21 | the lookup finds a user exactly when the email is a key, and returns the row stored under it |
| Persistence.FindByName | src/main/java/com/connectrh/core/repository/RoleRepository.java:22 | the lookup finds a role exactly when the name is a key, and returns the row stored under it |
| Persistence.SaveNewUser | src/main/java/com/connectrh/core/service/AuthService.java:73 | saving a new user inserts it under its email with the next identity; the role table is untouched |
| Persistence.SaveNewRole | src/main/java/com/connectrh/core/data/DataLoader.java:63-65 | saving a new role inserts it under its name with the next identity; the user table is untouched |
| Persistence.SaveNewUserPreservesValid | src/main/java/com/connectrh/core/service/AuthService.java:73 | inserting a user whose roles are role rows keeps the store consistent, and the new id differs from every existing user's id |
| Persistence.SaveNewRolePreservesValid | src/main/java/com/connectrh/core/data/DataLoader.java:63-65 | inserting a role under an absent name keeps the store consistent |
| AuthService.ValidateCredentials | src/main/java/com/connectrh/core/service/AuthService.java:39-52 | unknown email gives nothing; known email with a matching password gives exactly the stored user; known email with a non-matching password gives nothing |
| AuthService.CreateUser | src/main/java/com/connectrh/core/service/AuthService.java:54-74 | a taken email fails with IllegalArgument and the store is unchanged; with the email free and USER absent, it fails with the configuration error and the store is unchanged; otherwise it succeeds, adding one user with the request's name, email and phone, the password `encode(raw)`, role set exactly {USER row} and the next id, and roles untouched |
| AuthService.CreateUserAddsExactlyOne | src/main/java/com/connectrh/core/service/AuthService.java:59-73 | on success the user count grows by one, the keys grow by the new email only, every existing user is unchanged, and the new id is one no existing user has |
| AuthService.CreateUserPreservesValid | src/main/java/com/connectrh/core/service/AuthService.java:54-74 | registration, whatever its outcome, keeps the store consistent |
| AuthService.SignupThenLogin | src/main/java/com/connectrh/core/service/AuthService.java:39-73 | with a sound hasher, logging in right after a successful registration with the same email and password returns exactly the created user |
| AuthService.DuplicateSignupKeepsAccount | src/main/java/com/connectrh/core/service/AuthService.java:55-57 | a registration with a taken email fails with IllegalArgument, and the existing account logs in exactly as before |
| DataLoader.CreateRoleIfNotFound | src/main/java/com/connectrh/core/data/DataLoader.java:60-68 | an existing role is returned and nothing is saved; otherwise exactly one row under that name is added with the next id; either way the store then holds the returned row under the name |
| DataLoader.CreateRoleIfNotFoundIdempotent | src/main/java/com/connectrh/core/data/DataLoader.java:60-68 | a second lookup of the same name returns the same row and saves nothing |
| DataLoader.CreateRoleIfNotFoundPreservesValid | src/main/java/com/connectrh/core/data/DataLoader.java:60-68 | role creation keeps the store consistent |
| DataLoader.EnsureBaselineRoles | src/main/java/com/connectrh/core/data/DataLoader.java:36-38 | afterwards the role names are the old ones plus ADMIN, MANAGER and EMPLOYEE; existing rows and users are unchanged; the returned rows are the stored ADMIN and MANAGER rows |
| DataLoader.EnsureBaselineRolesPreservesValid | src/main/java/com/connectrh/core/data/DataLoader.java:36-38 | creating the baseline roles keeps the store consistent |
| DataLoader.Run | src/main/java/com/connectrh/core/data/DataLoader.java:34-55 | afterwards the role names are the old ones plus ADMIN, MANAGER and EMPLOYEE, and existing roles are unchanged; USER is present afterwards only if it was before; an existing admin email leaves the users, digest included, unchanged; otherwise exactly the admin is added with the fixed name and phone, password `encode("admin123")` and roles exactly {ADMIN row, MANAGER row} |
| DataLoader.RunIdempotent | src/main/java/com/connectrh/core/data/DataLoader.java:34-55 | seeding twice yields the same store as seeding once |
| DataLoader.SaveAdminPreservesValid | src/main/java/com/connectrh/core/data/DataLoader.java:41-51 | saving the admin with the stored ADMIN and MANAGER rows keeps the store consistent |
| DataLoader.RunPreservesValid | src/main/java/com/connectrh/core/data/DataLoader.java:34-55 | seeding keeps the store consistent |
| DataLoader.AdminManagerPair | src/main/java/com/connectrh/core/data/DataLoader.java:50 | rows named ADMIN and MANAGER are two distinct elements, and their names are exactly {ADMIN, MANAGER} |
| DataLoader.SeededAdminRoles | src/main/java/com/connectrh/core/data/DataLoader.java:47-50 | on a consistent store the new admin holds exactly two roles, whose names are exactly {ADMIN, MANAGER}, so the two-element set never sees a duplicate |
| ApiKeyAuthFilter.DoFilterInternal | src/main/java/com/connectrh/core/security/ApiKeyAuthFilter.java:29-56 | the request is always passed on; a present header equal to the key sets principal `internal-bff` with exactly {ROLE_INTERNAL}; otherwise the context is left as it was |
| ApiKeyAuthFilter.OnlyKeyHeaderMatters | src/main/java/com/connectrh/core/security/ApiKeyAuthFilter.java:26-36 | two requests with the same `X-INTERNAL-API-KEY` value get the same result from the gate, whatever their paths and other headers |
| ApiKeyAuthFilter.GrantsIffKeyMatches | src/main/java/com/connectrh/core/security/ApiKeyAuthFilter.java:36-49 | the gate grants exactly when the header equals the key, and then sets the internal token whatever the context held before |
| InternalSecurityConfig.AuthorizeRequest | src/main/java/com/connectrh/core/config/InternalSecurityConfig.java:60-63 | the authorization step never alters the context it lets through, and it refuses with 403 |
| InternalSecurityConfig.AuthorizeRequestFirstMatch | src/main/java/com/connectrh/core/config/InternalSecurityConfig.java:60-63 | a request is let through exactly when the first rule matching its path permits its context |
| InternalSecurityConfig.SelectChain | src/main/java/com/connectrh/core/config/InternalSecurityConfig.java:44-73 | the selected chain matches the path and no earlier chain does; no chain is selected only when none matches |
| InternalSecurityConfig.InternalMatcherIsPolicy | src/main/java/com/connectrh/core/config/InternalSecurityConfig.java:49 | the internal chain's matcher accepts exactly `/api/v1/internal` and the paths below it |
| InternalSecurityConfig.InternalChainFirst | src/main/java/com/connectrh/core/config/InternalSecurityConfig.java:44-73 | internal paths are handled by the order-1 chain even though the order-2 chain matches every path; all other paths go to the order-2 chain |
| InternalSecurityConfig.ReachesHandlerIff | src/main/java/com/connectrh/core/config/InternalSecurityConfig.java:45-82 | a request passes the security chains (and so reaches its handler) exactly when its path is not internal or its key header equals the key; an internal request that gets through carries the internal token; one that does not get through is refused with 403 |
| InternalSecurityConfig.PublicPathsPermitted | src/main/java/com/connectrh/core/config/InternalSecurityConfig.java:74-80 | a non-internal path passes the security chains with no token, whatever its headers |
| InternalSecurityConfig.GateBeforeAuthorizationNeeded | src/main/java/com/connectrh/core/config/InternalSecurityConfig.java:55-63 | if authorization ran before the gate, every internal request would be refused, so the placement of the gate ahead of it is what lets keyed requests through |
| InternalSecurityConfig.ServeIsPerRequest | src/main/java/com/connectrh/core/config/InternalSecurityConfig.java:53-77 | since both chains are stateless, each request in a client's sequence gets the outcome it would get on its own, whatever the carried session holds |
| AuthController.CheckStatus | src/main/java/com/connectrh/core/controller/AuthController.java:37-40 | always 200 with the text "Core Auth Service OK!" |
| AuthController.CollectRoleNames | src/main/java/com/connectrh/core/controller/AuthController.java:65-67 | the collected strings are exactly the names of the roles in the set: each role contributes its name and nothing else appears |
| AuthController.Login | src/main/java/com/connectrh/core/controller/AuthController.java:49-74 | 200 exactly when the email is known and the password matches its digest, and then the body has that user's id, name, email, phone and role names; any other case is 401 with one fixed reason |
| AuthController.RegisterUser | src/main/java/com/connectrh/core/controller/AuthController.java:76-94 | a taken email gives 400 with the duplicate message; a free email without the USER role gives 500 with the configuration message; otherwise 201 with the new id and the request's name, email and phone; the store is the one registration leaves |
| AuthController.LoginIndistinguishable | src/main/java/com/connectrh/core/controller/AuthController.java:70-72 | an unknown email and a wrong password for a known email give the identical 401 response |
| AuthController.DuplicateSignupRejected | src/main/java/com/connectrh/core/controller/AuthController.java:89-90 | a signup with a taken email is a 400 and the store is unchanged |
| AuthController.SignupThenLoginResponse | src/main/java/com/connectrh/core/controller/AuthController.java:49-88 | with a sound hasher and USER seeded, a 201 signup is followed by a 200 login reporting the same id and role names exactly {"USER"} |
| AuthController.SignupFailsAfterFreshSeed | src/main/java/com/connectrh/core/service/AuthService.java:67-70 | on a store seeded from empty, every signup with a non-admin email is a 500 with the missing-USER message and saves nothing |
| AuthController.AdminManagerRoleNames | src/main/java/com/connectrh/core/controller/AuthController.java:65-67 | role rows named exactly ADMIN and MANAGER project to exactly {"ADMIN", "MANAGER"} |
| AuthController.SeededAdminLogin | src/main/java/com/connectrh/core/data/DataLoader.java:41-50 | after seeding, `admin@connectrh.com` / `admin123` logs in with 200 and role names {"ADMIN", "MANAGER"} |
| AuthController.FreshSeedAdminLogin | src/main/java/com/connectrh/core/data/DataLoader.java:41-50 | on a database seeded from empty, `admin@connectrh.com` / `admin123` logs in with 200 and role names {"ADMIN", "MANAGER"} |
| AuthController.SeededAdminWrongPassword | src/main/java/com/connectrh/core/controller/AuthController.java:70-72 | after seeding, the admin email with a password the hasher rejects gets the fixed 401 |

## Left out

- Framework wiring is not modelled: dependency injection, loading the key from configuration, the `HttpSecurity` builder calls and CSRF settings. The model keeps the authorization decisions they configure, but not the filters Spring adds to every chain by default (see the logout line below).
- Header lookup: the servlet container matches header names case-insensitively and may hold several values. The model takes each header name in its canonical spelling with one value.
- Path extraction: context-path stripping, URL decoding and path normalisation happen before matching and are not modelled.
- The authorization rule inside the internal chain uses Spring's request-matcher factory. It is modelled with the same sub-path rule as the chain's own matcher, since both use the same pattern.
- Refusals are answered as 403. With no login mechanism configured, Spring's default entry point answers forbidden. The anonymous-authentication filter is not modelled: an absent token stands for it.
- The username/password filter that the gate is placed before is not modelled. The chain does not enable form login. The ordering property is stated as the gate running before the authorization step.
- The session policy is modelled only as a single context carried between one client's requests. There are no session ids or cookies.
- Persistence: id generation is a per-table counter standing for "a fresh id". Database unique constraints are not modelled. Neither is the race between the duplicate check and the save in registration. Save failures are not modelled either; they would surface as 500.
- Password hashing: the encoder is opaque. Salting makes real digests differ from call to call, while the model's `encode` is a function. Constant-time comparison is not modelled.
- The field checks on the login payload (non-blank, email format, minimum length 6) are enforced before the handler runs. They are not modelled.
- AuthController.RegisterUser: absent (null) signup fields are not modelled. `CreateUserRequest` declares no constraints, so a signup that leaves out a field reaches `createUser` with null. A null password reaches the encoder, which may throw; that would give 400 if the exception is an `IllegalArgumentException` and 500 otherwise. A null email is looked up as `email IS NULL`, which finds nothing unless such a row exists. A null email, name or phone is then saved unless the `User` entity forbids it, giving 201 with null fields, or 500 from the database. The model's request holds only present strings.
- InternalSecurityConfig.PublicPathsPermitted and InternalSecurityConfig.ReachesHandlerIff: the logout filter that Spring adds by default to the public chain is not modelled. With CSRF disabled, that filter answers GET, POST, PUT and DELETE on `/logout` itself with a redirect to `/login?logout`, so such a request never reaches a handler. The two lemmas state the authorization decision, which permits `/logout` like any other non-internal path.
- The gate is also a `Filter` bean, so Spring Boot registers it as a servlet filter on every URL as well as in the internal chain. On a public path carrying the key, that instance sets the internal token after authorization has passed. No decision changes, since no handler lives outside the internal prefix. The model runs the gate only inside the internal chain.
- Response rendering: a `ResponseStatusException` is modelled as its status and reason. Whether the reason reaches the response body depends on error-page settings outside this code.
- The model fixes `Role.RoleName` to ADMIN, MANAGER, EMPLOYEE and USER.
- The console message printed when the administrator is created, and logging, are not modelled.
